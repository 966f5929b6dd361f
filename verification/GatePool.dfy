/**
 * The reference-counted task gates. Semaphores are created when a task is first
 * used and forgotten when its last user leaves; the pool nevertheless behaves
 * like one permanent mutex per task.
 */
module GatePool {
  import opened Types

  /** The specification: who overlaps on which task, and who is inside. */
  datatype Mutex = Mutex(users: map<DeliveryId, ThreadId>, holder: map<ThreadId, DeliveryId>)

  ghost function UsersOf(users: map<DeliveryId, ThreadId>, t: ThreadId): set<DeliveryId> {
    set r | r in users && users[r] == t
  }

  /** A semaphore with its reference count. */
  class Gate {
    var permits: nat
    var users: nat
    ghost const task: ThreadId

    constructor (ghost task: ThreadId)
      ensures permits == 1 && users == 0 && this.task == task
    {
      permits, users := 1, 0;
      this.task := task;
    }
  }

  class TaskGatePool {
    var gates: map<ThreadId, Gate>
    /** The gate each run was handed when it entered. */
    ghost var held: map<DeliveryId, Gate>
    ghost var mutex: Mutex

    ghost predicate Valid()
      reads this, gates.Values
    {
      Sound(None)
    }

    /** Valid, except that the gate of one task may still have no user. */
    ghost predicate Sound(unused: Option<ThreadId>)
      reads this, gates.Values
    {
      Shared(unused) && Locked()
    }

    ghost predicate Shared(unused: Option<ThreadId>)
      reads this, gates.Values
    {
      && held.Keys == mutex.users.Keys
      // All overlapping runs of a task hold the same semaphore.
      && (forall r :: r in held ==> mutex.users[r] in gates && gates[mutex.users[r]] == held[r])
      && (forall t :: t in gates ==> gates[t].task == t)
      // The count is the number of overlapping runs, and an entry exists exactly while it is positive.
      && (forall t :: t in gates ==> gates[t].users == |UsersOf(mutex.users, t)|)
      && (forall t :: t in gates ==> gates[t].users > 0 || unused == Some(t))
    }

    /** The permit is out exactly while a run that overlaps on the task is inside. */
    ghost predicate Locked()
      reads this, gates.Values
    {
      && (forall t :: t in gates ==> gates[t].permits == if t in mutex.holder then 0 else 1)
      && (forall t :: t in mutex.holder ==> mutex.holder[t] in mutex.users && mutex.users[mutex.holder[t]] == t)
    }

    constructor ()
      ensures Valid() && mutex == Mutex(map[], map[]) && gates == map[]
    {
      gates, held, mutex := map[], map[], Mutex(map[], map[]);
    }

    method FindOrCreate(t: ThreadId) returns (gate: Gate)
      requires Valid()
      modifies this`gates
      ensures Sound(Some(t)) && mutex == old(mutex) && held == old(held)
      ensures gates == old(gates)[t := gate] && (t in old(gates) ==> gate == old(gates)[t])
      ensures t !in old(gates) ==> fresh(gate)
    {
      if t in gates {
        gate := gates[t];
      } else {
        assert UsersOf(mutex.users, t) == {};
        gate := new Gate(t);
        gates := gates[t := gate];
      }
    }

    /** Acquire the entry: find or create the task's gate and count this run. */
    method Enter(run: DeliveryId, t: ThreadId) returns (gate: Gate)
      requires Valid() && run !in mutex.users
      modifies this, if t in gates then {gates[t]} else {}
      ensures Valid() && (t !in old(gates) ==> fresh(gate))
      ensures gates == old(gates)[t := gate] && (t in old(gates) ==> gate == old(gates)[t])
      ensures mutex == old(mutex).(users := old(mutex).users[run := t])
      ensures held == old(held)[run := gate]
    {
      gate := FindOrCreate(t);
      Count(run, t, gate);
    }

    method Count(run: DeliveryId, t: ThreadId, gate: Gate)
      requires Shared(Some(t)) && run !in mutex.users && t in gates && gates[t] == gate
      modifies this`mutex, this`held, gate`users
      ensures Shared(None)
      ensures mutex == old(mutex).(users := old(mutex).users[run := t])
      ensures held == old(held)[run := gate]
    {
      UserAdded(mutex.users, run, t);
      hide UsersOf;
      gate.users := gate.users + 1;
      mutex := mutex.(users := mutex.users[run := t]);
      held := held[run := gate];
    }

    /** The semaphore grants its permit exactly when no run of the task is inside. */
    method TakePermit(run: DeliveryId, gate: Gate) returns (granted: bool)
      requires Valid() && run in mutex.users && held[run] == gate
      requires mutex.users[run] in mutex.holder ==> mutex.holder[mutex.users[run]] != run
      modifies this`mutex, gate`permits
      ensures Valid() && gates == old(gates) && held == old(held)
      ensures granted == (old(mutex).users[run] !in old(mutex).holder)
      ensures mutex == if granted then old(mutex).(holder := old(mutex).holder[old(mutex).users[run] := run])
                    else old(mutex)
    {
      granted := gate.permits > 0;
      if granted {
        gate.permits := gate.permits - 1;
        mutex := mutex.(holder := mutex.holder[mutex.users[run] := run]);
      }
    }

    /** The effect ended: the permit goes back. */
    method ReleasePermit(run: DeliveryId, gate: Gate)
      requires Valid() && run in mutex.users && held[run] == gate
      requires mutex.users[run] in mutex.holder && mutex.holder[mutex.users[run]] == run
      modifies this`mutex, gate`permits
      ensures Valid() && gates == old(gates) && held == old(held)
      ensures mutex == old(mutex).(holder := old(mutex).holder - {old(mutex).users[run]})
    {
      gate.permits := gate.permits + 1;
      mutex := mutex.(holder := mutex.holder - {mutex.users[run]});
    }

    /** Release the entry: the last user forgets the gate. */
    method Leave(run: DeliveryId, t: ThreadId, gate: Gate)
      requires Valid() && run in mutex.users && held[run] == gate && mutex.users[run] == t
      requires t in mutex.holder ==> mutex.holder[t] != run
      modifies this, gate`users
      ensures Valid()
      ensures mutex == old(mutex).(users := old(mutex).users - {run})
      ensures held == old(held) - {run}
      ensures gates == if UsersOf(old(mutex).users, t) == {run} then old(gates) - {t} else old(gates)
    {
      LoneUser(mutex.users, run, t);
      Uncount(run, t, gate);
      if gate.users == 0 {
        gates := gates - {t};
      }
    }

    method Uncount(run: DeliveryId, t: ThreadId, gate: Gate)
      requires Shared(None) && run in mutex.users && held[run] == gate && mutex.users[run] == t
      modifies this`mutex, this`held, gate`users
      ensures Shared(Some(t)) && gates == old(gates)
      ensures mutex == old(mutex).(users := old(mutex).users - {run})
      ensures held == old(held) - {run}
      ensures gate.users == |UsersOf(old(mutex).users, t)| - 1
    {
      UserRemoved(mutex.users, run, t);
      hide UsersOf;
      gate.users := gate.users - 1;
      mutex := mutex.(users := mutex.users - {run});
      held := held - {run};
    }
  }

  lemma UserAdded(users: map<DeliveryId, ThreadId>, run: DeliveryId, t: ThreadId)
    requires run !in users
    ensures |UsersOf(users[run := t], t)| == |UsersOf(users, t)| + 1
    ensures forall u :: u != t ==> UsersOf(users[run := t], u) == UsersOf(users, u)
  {
    assert UsersOf(users[run := t], t) == UsersOf(users, t) + {run};
  }

  lemma UserRemoved(users: map<DeliveryId, ThreadId>, run: DeliveryId, t: ThreadId)
    requires run in users && users[run] == t
    ensures |UsersOf(users - {run}, t)| == |UsersOf(users, t)| - 1
    ensures forall u :: u != t ==> UsersOf(users - {run}, u) == UsersOf(users, u)
  {
    assert UsersOf(users - {run}, t) == UsersOf(users, t) - {run};
  }

  lemma LoneUser(users: map<DeliveryId, ThreadId>, run: DeliveryId, t: ThreadId)
    requires run in users && users[run] == t
    ensures UsersOf(users, t) == {run} <==> |UsersOf(users, t)| == 1
  {
    if |UsersOf(users, t)| == 1 {
      assert |UsersOf(users, t) - {run}| == 0;
    }
  }

  /** A task has an entry exactly while some run overlaps on it, and everybody on it shares that entry. */
  lemma EntryExactlyWhileUsed(pool: TaskGatePool, t: ThreadId)
    requires pool.Valid()
    ensures t in pool.gates <==> exists r :: r in pool.mutex.users && pool.mutex.users[r] == t
    ensures forall r :: r in pool.mutex.users && pool.mutex.users[r] == t ==> pool.held[r] == pool.gates[t]
  {
    if t in pool.gates {
      var r :| r in UsersOf(pool.mutex.users, t);
      assert r in pool.mutex.users && pool.mutex.users[r] == t;
    }
  }
}
