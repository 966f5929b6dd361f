/** The attachment's event handlers as they update its replicas in place. */
module AttachmentService {
  import opened Types
  import opened Replica
  import opened Attachment
  import opened ThreadState
  import Agreement = ReplicaAgreement
  import Fence = ReplicaFence
  import Proof = AttachmentProof

  class DesktopAttachment {
    var closed: bool
    var generation: int
    var states: map<ThreadId, DesktopThreadState>
    var resyncing: set<ThreadId>
    /** The whole machine, of which the fields above are the connection's part. */
    ghost var machine: Machine

    /** One object per task, and each is the replica its history makes. */
    ghost predicate Valid()
      reads this, states.Values
    {
      && closed == machine.closed && generation == machine.generation
      && Separate()
      && forall t :: t in states ==> states[t].View() == Agreement.Exec(machine.histories[t])
    }

    ghost predicate Separate()
      reads this
    {
      && states.Keys == machine.histories.Keys
      && forall t, u :: t in states && u in states && states[t] == states[u] ==> t == u
    }

    constructor ()
      ensures Valid() && machine == INITIAL && resyncing == {} && states == map[]
    {
      closed, generation, states, resyncing := false, 1, map[], {};
      machine := INITIAL;
    }

    /** A task has a replica of its own from the first time it is asked for. */
    method GetState(t: ThreadId) returns (state: DesktopThreadState)
      requires Valid()
      modifies this`states, this`machine
      ensures Valid() && t in states && states[t] == state
      ensures states == old(states)[t := state] && (t !in old(states) ==> fresh(state))
      ensures machine == Step(old(machine), Look(t))
    {
      if t !in states {
        state := new DesktopThreadState();
        states := states[t := state];
        machine := machine.(histories := machine.histories[t := []]);
      } else {
        state := states[t];
      }
    }

    /** A change reaches the replica of its task; the history is requested exactly when the replica cannot go on from
        what it has and no request is outstanding, and then the replica is not synchronized. */
    method OnChange(t: ThreadId, change: Change) returns (requested: bool)
      requires Valid()
      modifies this`machine, this`resyncing, states.Values
      ensures Valid() && machine == Step(old(machine), Changed(t, change))
      ensures closed || t !in states ==> !requested && resyncing == old(resyncing)
      ensures !closed && t in states ==>
                && Requested(Agreement.Exec(old(machine).histories[t]), change, generation, t,
                             old(resyncing), resyncing, requested)
                && (t in resyncing && t !in old(resyncing) ==> !states[t].View().Ready())
    {
      hide Step, Agreement.Exec, Verdict, Replica.Apply, Requested;
      requested := false;
      ghost var next := Step(machine, Changed(t, change));
      ChangedMoves(machine, t, change);
      if !closed && t in states { requested := TakeChange(t, change, machine.histories[t]); }
      machine := next;
    }

    method TakeChange(t: ThreadId, change: Change, ghost h: History) returns (requested: bool)
      requires Separate() && t in states && states[t].View() == Agreement.Exec(h)
      modifies this`resyncing, states[t]
      ensures Requested(Agreement.Exec(h), change, generation, t, old(resyncing), resyncing, requested)
      ensures t in resyncing && t !in old(resyncing) ==> !states[t].View().Ready()
      ensures states[t].View() == Replica.Apply(Agreement.Exec(h), change, generation)
      ensures forall u :: u in states && u != t ==> states[u].View() == old(states[u].View())
    {
      hide Agreement.Exec, Verdict, Replica.Apply, Fence.Reaches, Fence.LosesTrack, Fence.Advances;
      RequestsExactly(h, change, generation);
      AppliedIsReady(states[t].View(), change, generation);
      var result, ready := ApplyTo(t, change);
      requested := NoteResult(t, result, ready);
    }

    /** Only the task's own replica changes: no other shares its object. */
    method ApplyTo(t: ThreadId, change: Change) returns (result: ChangeResult, ready: bool)
      requires Separate() && t in states
      modifies states[t]
      ensures result == Verdict(old(states[t].View()), change, generation)
      ensures states[t].View() == Replica.Apply(old(states[t].View()), change, generation)
      ensures ready <==> states[t].View().Ready()
      ensures forall u :: u in states && u != t ==> states[u].View() == old(states[u].View())
    {
      hide Verdict, Replica.Apply;
      result := states[t].Apply(change, generation);
      ready := states[t].attachment == Synchronized;
    }

    method NoteResult(t: ThreadId, result: ChangeResult, ready: bool) returns (requested: bool)
      modifies this`resyncing
      ensures requested <==> result == Resync && t !in old(resyncing)
      ensures resyncing == if result == Resync then old(resyncing) + {t}
                           else if result == Applied && ready then old(resyncing) - {t} else old(resyncing)
    {
      requested := false;
      if result == Applied && ready {
        resyncing := resyncing - {t};
      } else if result == Resync {
        requested := t !in resyncing;
        resyncing := resyncing + {t};
      }
    }

    /** A refused or failed history request may be made again. */
    method OnResyncFailed(t: ThreadId)
      modifies this`resyncing
      ensures resyncing == old(resyncing) - {t}
    {
      resyncing := resyncing - {t};
    }

    method OnReconnecting()
      requires Valid()
      modifies this`generation, this`machine, states.Values
      ensures Valid() && machine == Step(old(machine), Reconnecting)
    {
      hide Step, Agreement.Exec;
      ReconnectingMoves(machine);
      if !closed {
        generation := generation + 1;
        FollowAll(false);
      }
      machine := Step(machine, Reconnecting);
    }

    method OnReconnected()
      requires Valid()
      modifies this`machine, states.Values
      ensures Valid() && machine == Step(old(machine), Reconnected)
    {
      hide Step, Agreement.Exec;
      ReconnectedMoves(machine);
      if !closed { FollowAll(true); }
      machine := Step(machine, Reconnected);
    }

    method OnDisconnected()
      requires Valid()
      modifies this`machine, this`resyncing, states.Values
      ensures Valid() && machine == Step(old(machine), Lost)
      ensures resyncing == if closed then old(resyncing) else {}
    {
      hide Step, Agreement.Exec, Replica.Disconnect;
      LostMoves(machine);
      if !closed {
        resyncing := {};
        DisconnectAll();
      }
      machine := Step(machine, Lost);
    }

    method CloseAttachment()
      requires Valid()
      modifies this`closed, this`machine, this`resyncing, states.Values
      ensures Valid() && closed && machine == Step(old(machine), Close)
      ensures resyncing == if old(closed) then old(resyncing) else {}
    {
      hide Step, Agreement.Exec, Replica.Disconnect;
      CloseMoves(machine);
      if !closed {
        closed, resyncing := true, {};
        DisconnectAll();
      }
      machine := Step(machine, Close);
    }

    method DisconnectAll()
      requires Separate()
      modifies states.Values
      ensures forall t :: t in states ==> states[t].View() == Replica.Disconnect(old(states[t].View()))
    {
      var left := states.Keys;
      while left != {}
        invariant left <= states.Keys
        invariant forall t :: t in left ==> states[t].View() == old(states[t].View())
        invariant forall t :: t in states && t !in left ==>
                      states[t].View() == Replica.Disconnect(old(states[t].View()))
        decreases left
      {
        var t :| t in left;
        states[t].Disconnect();
        left := left - {t};
      }
    }

    /** Every replica, or every connecting one, starts over under the current generation. */
    method FollowAll(connectingOnly: bool)
      requires Separate()
      modifies states.Values
      ensures forall t :: t in states ==>
                states[t].View() == Followed(old(states[t].View()), generation, connectingOnly)
    {
      var left := states.Keys;
      while left != {}
        invariant left <= states.Keys
        invariant forall t :: t in left ==> states[t].View() == old(states[t].View())
        invariant forall t :: t in states && t !in left ==>
                    states[t].View() == Followed(old(states[t].View()), generation, connectingOnly)
        decreases left
      {
        var t :| t in left;
        if !connectingOnly || states[t].connection == Connecting { states[t].BeginFollowing(generation); }
        left := left - {t};
      }
    }
  }

  /** The history is requested when a change makes the replica lose track and no request is outstanding; a request stays
      outstanding until a change brings the replica on. */
  ghost predicate Requested(
    before: State, change: Change, generation: int, t: ThreadId,
    resyncing: set<ThreadId>, after: set<ThreadId>, requested: bool)
  {
    && (Fence.Reaches(before, generation) && Fence.LosesTrack(before, change) ==>
          after == resyncing + {t} && (requested <==> t !in resyncing))
    && (!(Fence.Reaches(before, generation) && Fence.LosesTrack(before, change)) ==>
          && !requested
          && after == if Fence.Reaches(before, generation) && Fence.Advances(before, change) then resyncing - {t}
                      else resyncing)
  }

  function Followed(s: State, generation: int, connectingOnly: bool): State {
    if connectingOnly && s.connection != Connecting then s else BeginFollowing(s, generation)
  }

  /** The machine moves as a whole: its flags, and every replica by the same change. */
  ghost predicate Moves(s: Machine, after: Machine, change: State -> State) {
    && after.histories.Keys == s.histories.Keys
    && forall t :: t in s.histories ==> Agreement.Exec(after.histories[t]) == change(Agreement.Exec(s.histories[t]))
  }

  lemma RecordedForAll(s: Machine, e: Agreement.Event)
    ensures Moves(s, RecordAll(s, e), replica => Agreement.Step(replica, e))
  {
    hide Agreement.Exec, Agreement.Step;
    forall t | t in s.histories
      ensures Agreement.Exec(s.histories[t] + [e]) == Agreement.Step(Agreement.Exec(s.histories[t]), e)
    {
      Agreement.ExecAppend(s.histories[t], e);
    }
  }

  lemma AppliedIsReady(s: State, change: Change, generation: int)
    ensures Verdict(s, change, generation) == Applied ==> Apply(s, change, generation).attachment == Synchronized
  {
  }

  /** A replica asks for the history exactly when a change that reaches it makes it lose track. */
  lemma RequestsExactly(h: History, change: Change, generation: int)
    ensures var before := Agreement.Exec(h);
            && (Verdict(before, change, generation) == Resync
                <==> Fence.Reaches(before, generation) && Fence.LosesTrack(before, change))
            && (Verdict(before, change, generation) == Applied
                <==> Fence.Reaches(before, generation) && Fence.Advances(before, change))
            && (Fence.Reaches(before, generation) && Fence.LosesTrack(before, change) ==>
                  !Apply(before, change, generation).Ready())
  {
    hide Agreement.Exec;
    Agreement.IndexesStayLinked(h);
    Fence.FenceExactly(Agreement.Exec(h), change, generation);
  }

  lemma ChangedMoves(s: Machine, t: ThreadId, change: Change)
    ensures var after := Step(s, Changed(t, change));
            && after.closed == s.closed && after.generation == s.generation
            && (s.closed || t !in s.histories ==> after == s)
            && (!s.closed && t in s.histories ==>
                  && after.histories.Keys == s.histories.Keys
                  && Agreement.Exec(after.histories[t]) == Apply(Agreement.Exec(s.histories[t]), change, s.generation)
                  && forall u :: u in s.histories && u != t ==> after.histories[u] == s.histories[u])
  {
    hide Agreement.Exec, Apply;
    if t in s.histories { DeliveryMoves(s.histories[t], change, s.generation); }
  }

  lemma DeliveryMoves(h: History, change: Change, generation: int)
    ensures Agreement.Exec(h + [Agreement.Deliver(change, generation)]) == Apply(Agreement.Exec(h), change, generation)
  {
    hide Apply;
    Agreement.ExecAppend(h, Agreement.Deliver(change, generation));
  }

  lemma LostMoves(s: Machine)
    ensures s.closed ==> Step(s, Lost) == s
    ensures !s.closed ==> Moves(s, Step(s, Lost), replica => Disconnect(replica))
    ensures Step(s, Lost).closed == s.closed && Step(s, Lost).generation == s.generation
  {
    RecordedForAll(s, Agreement.Drop);
  }

  lemma CloseMoves(s: Machine)
    ensures s.closed ==> Step(s, Close) == s
    ensures !s.closed ==> Moves(s, Step(s, Close), replica => Disconnect(replica))
    ensures Step(s, Close).closed && Step(s, Close).generation == s.generation
  {
    RecordedForAll(s.(closed := true), Agreement.Drop);
  }

  lemma ReconnectingMoves(s: Machine)
    ensures s.closed ==> Step(s, Reconnecting) == s
    ensures !s.closed ==> Moves(s, Step(s, Reconnecting), replica => Followed(replica, s.generation + 1, false))
    ensures Step(s, Reconnecting).closed == s.closed
    ensures Step(s, Reconnecting).generation == if s.closed then s.generation else s.generation + 1
  {
    var next := s.(generation := s.generation + 1);
    FollowMoves(next);
    if !s.closed {
      var after := Step(s, Reconnecting);
      assert after == RecordAll(next, Agreement.Follow(next.generation));
      forall t | t in s.histories
        ensures Agreement.Exec(after.histories[t]) == Followed(Agreement.Exec(s.histories[t]), s.generation + 1, false)
      {
        assert Agreement.Exec(after.histories[t])
               == Followed(Agreement.Exec(next.histories[t]), next.generation, false);
      }
    }
  }

  lemma FollowMoves(s: Machine)
    ensures Moves(s, RecordAll(s, Agreement.Follow(s.generation)), replica => Followed(replica, s.generation, false))
  {
    RecordedForAll(s, Agreement.Follow(s.generation));
  }

  lemma ReconnectedMoves(s: Machine)
    ensures s.closed ==> Step(s, Reconnected) == s
    ensures !s.closed ==> Moves(s, Step(s, Reconnected), replica => Followed(replica, s.generation, true))
    ensures Step(s, Reconnected).closed == s.closed && Step(s, Reconnected).generation == s.generation
  {
    hide Agreement.Exec;
    if !s.closed {
      forall t | t in s.histories
        ensures Agreement.Exec(s.histories[t] + [Agreement.Follow(s.generation)])
                == BeginFollowing(Agreement.Exec(s.histories[t]), s.generation)
      {
        Agreement.ExecAppend(s.histories[t], Agreement.Follow(s.generation));
      }
    }
  }
}
