/**
 * The promise chain that serializes commands. Each task's chain remembers only
 * its newest promise; a command starts when the one it was chained behind
 * released, and forgets the chain when it is still the newest.
 */
module Serialize {
  import opened Types

  type CommandId(==, !new)

  datatype Phase = Waiting | Running | Released

  /** `number` is the arrival order, known to the observer only. */
  datatype Slot = Slot(thread: ThreadId, number: nat, previous: Option<CommandId>, phase: Phase)

  datatype Chain = Chain(slots: map<CommandId, Slot>, newest: map<ThreadId, CommandId>, arrived: nat)

  const EMPTY := Chain(map[], map[], 0)

  function Arrive(c: Chain, id: CommandId, thread: ThreadId): Chain {
    var previous := if thread in c.newest then Some(c.newest[thread]) else None;
    Chain(c.slots[id := Slot(thread, c.arrived, previous, Waiting)], c.newest[thread := id], c.arrived + 1)
  }

  predicate MayStart(c: Chain, id: CommandId) {
    && id in c.slots && c.slots[id].phase == Waiting
    && (c.slots[id].previous.Some? ==>
          c.slots[id].previous.value in c.slots && c.slots[c.slots[id].previous.value].phase == Released)
  }

  function Start(c: Chain, id: CommandId): Chain
    requires MayStart(c, id)
  {
    c.(slots := c.slots[id := c.slots[id].(phase := Running)])
  }

  predicate IsRunning(c: Chain, id: CommandId) {
    id in c.slots && c.slots[id].phase == Running
  }

  function Release(c: Chain, id: CommandId): Chain
    requires IsRunning(c, id)
  {
    var thread := c.slots[id].thread;
    c.(slots := c.slots[id := c.slots[id].(phase := Released)],
       newest := if thread in c.newest && c.newest[thread] == id then c.newest - {thread} else c.newest)
  }

  /** A command of this task that has not released yet. */
  predicate Open(c: Chain, id: CommandId, thread: ThreadId) {
    id in c.slots && c.slots[id].thread == thread && c.slots[id].phase != Released
  }

  ghost predicate Ordered(c: Chain) {
    Numbered(c) && Remembered(c) && Chained(c)
  }

  ghost predicate Numbered(c: Chain) {
    && (forall a :: a in c.slots ==> c.slots[a].number < c.arrived)
    && (forall a, b :: a in c.slots && b in c.slots && c.slots[a].number == c.slots[b].number ==> a == b)
  }

  /** The newest open command of a task is remembered, and only an open one is. */
  ghost predicate Remembered(c: Chain) {
    && (forall t :: t in c.newest ==> Open(c, c.newest[t], t))
    && (forall a :: a in c.slots && c.slots[a].phase != Released ==>
          && c.slots[a].thread in c.newest
          && c.slots[a].number <= c.slots[c.newest[c.slots[a].thread]].number)
  }

  /** A command behind an open one waits, chained to an open command at least as new. */
  ghost predicate Chained(c: Chain) {
    forall a, b :: a in c.slots && b in c.slots && Behind(c, a, b) ==> ChainedBehind(c, a, b)
  }

  /** `a` arrived before `b` on the same task and both are open. */
  predicate Behind(c: Chain, a: CommandId, b: CommandId)
    requires a in c.slots && b in c.slots
  {
    && c.slots[a].thread == c.slots[b].thread
    && c.slots[a].phase != Released && c.slots[b].phase != Released
    && c.slots[a].number < c.slots[b].number
  }

  predicate ChainedBehind(c: Chain, a: CommandId, b: CommandId)
    requires a in c.slots && b in c.slots
  {
    && c.slots[b].phase == Waiting
    && c.slots[b].previous.Some?
    && Open(c, c.slots[b].previous.value, c.slots[b].thread)
    && c.slots[a].number <= c.slots[c.slots[b].previous.value].number < c.slots[b].number
  }

  lemma ChainsBack(c: Chain, a: CommandId, b: CommandId)
    requires Chained(c) && a in c.slots && b in c.slots
    ensures Behind(c, a, b) ==> ChainedBehind(c, a, b)
  {
  }

  /** One command of a task runs at a time, and no earlier one is still open. */
  lemma OneAtATimeInOrder(c: Chain, running: CommandId, other: CommandId)
    requires Ordered(c) && IsRunning(c, running) && other != running
    requires Open(c, other, c.slots[running].thread)
    ensures c.slots[other].phase == Waiting && c.slots[running].number < c.slots[other].number
  {
    ChainsBack(c, running, other);
    ChainsBack(c, other, running);
  }

  lemma ArriveKeepsOrder(c: Chain, id: CommandId, thread: ThreadId)
    requires Ordered(c) && id !in c.slots
    ensures Ordered(Arrive(c, id, thread))
  {
    ArriveKeepsRemembered(c, id, thread);
    ArriveKeepsChained(c, id, thread);
  }

  lemma ArriveKeepsRemembered(c: Chain, id: CommandId, thread: ThreadId)
    requires Numbered(c) && Remembered(c) && id !in c.slots
    ensures Remembered(Arrive(c, id, thread))
  {
    var after := Arrive(c, id, thread);
    forall t | t in after.newest ensures Open(after, after.newest[t], t) {
      if t != thread { assert Open(c, c.newest[t], t); }
    }
  }

  lemma ArriveKeepsChained(c: Chain, id: CommandId, thread: ThreadId)
    requires Ordered(c) && id !in c.slots
    ensures Chained(Arrive(c, id, thread))
  {
    var after := Arrive(c, id, thread);
    forall a, b | a in after.slots && b in after.slots && Behind(after, a, b) ensures ChainedBehind(after, a, b) {
      if b != id {
        assert a in c.slots && Behind(c, a, b) && ChainedBehind(c, a, b);
      } else {
        assert a in c.slots && Open(c, c.newest[thread], thread);
      }
    }
  }

  lemma StartKeepsOrder(c: Chain, id: CommandId)
    requires Ordered(c) && MayStart(c, id)
    ensures Ordered(Start(c, id))
  {
    StartKeepsRemembered(c, id);
    var after := Start(c, id);
    forall a, b | a in after.slots && b in after.slots && Behind(after, a, b) ensures ChainedBehind(after, a, b) {
      assert Behind(c, a, b) && ChainedBehind(c, a, b);
    }
  }

  lemma StartKeepsRemembered(c: Chain, id: CommandId)
    requires Remembered(c) && MayStart(c, id)
    ensures Remembered(Start(c, id))
  {
  }

  lemma ReleaseKeepsOrder(c: Chain, id: CommandId)
    requires Ordered(c) && IsRunning(c, id)
    ensures Ordered(Release(c, id))
  {
    ReleaseKeepsRemembered(c, id);
    var after := Release(c, id);
    forall a, b | a in after.slots && b in after.slots && Behind(after, a, b) ensures ChainedBehind(after, a, b) {
      assert Behind(c, a, b) && ChainedBehind(c, a, b);
      if c.slots[a].thread == c.slots[id].thread { OneAtATimeInOrder(c, id, a); }
    }
  }

  lemma ReleaseKeepsRemembered(c: Chain, id: CommandId)
    requires Ordered(c) && IsRunning(c, id)
    ensures Remembered(Release(c, id))
  {
    var after := Release(c, id);
    forall a | a in after.slots && after.slots[a].phase != Released
      ensures after.slots[a].thread in after.newest
      ensures after.slots[a].number <= after.slots[after.newest[after.slots[a].thread]].number
    {
      if c.slots[a].thread == c.slots[id].thread { OneAtATimeInOrder(c, id, a); }
    }
  }

  // ---------- nobody waits for nothing ----------

  /** What a command is chained behind arrived before it on the same task. */
  ghost predicate Rooted(c: Chain) {
    forall a :: a in c.slots && c.slots[a].previous.Some? ==> RootedAt(c, a)
  }

  predicate RootedAt(c: Chain, a: CommandId)
    requires a in c.slots && c.slots[a].previous.Some?
  {
    var p := c.slots[a].previous.value;
    p in c.slots && c.slots[p].thread == c.slots[a].thread && c.slots[p].number < c.slots[a].number
  }

  lemma ArriveKeepsRoots(c: Chain, id: CommandId, thread: ThreadId)
    requires Ordered(c) && Rooted(c) && id !in c.slots
    ensures Rooted(Arrive(c, id, thread))
  {
    var after := Arrive(c, id, thread);
    forall a | a in after.slots && after.slots[a].previous.Some? ensures RootedAt(after, a) {
      if a != id { assert RootedAt(c, a); }
      else { assert Open(c, c.newest[thread], thread); }
    }
  }

  lemma StartKeepsRoots(c: Chain, id: CommandId)
    requires Rooted(c) && MayStart(c, id)
    ensures Rooted(Start(c, id))
  {
    var after := Start(c, id);
    forall a | a in after.slots && after.slots[a].previous.Some? ensures RootedAt(after, a) { assert RootedAt(c, a); }
  }

  lemma ReleaseKeepsRoots(c: Chain, id: CommandId)
    requires IsRunning(c, id)
    ensures Rooted(c) ==> Rooted(Release(c, id))
  {
    var after := Release(c, id);
    if Rooted(c) {
      forall a | a in after.slots && after.slots[a].previous.Some? ensures RootedAt(after, a) { assert RootedAt(c, a); }
    }
  }

  /** While a command waits, one of its task runs or may start: the first it is chained behind, directly or not, whose
      own predecessor released. */
  lemma {:induction false} SomeoneGoesOn(c: Chain, id: CommandId) returns (next: CommandId)
    requires Rooted(c) && id in c.slots && c.slots[id].phase != Released
    ensures next in c.slots && c.slots[next].thread == c.slots[id].thread
    ensures IsRunning(c, next) || MayStart(c, next)
    decreases c.slots[id].number
  {
    if c.slots[id].phase == Running || MayStart(c, id) {
      next := id;
    } else {
      assert RootedAt(c, id);
      next := SomeoneGoesOn(c, c.slots[id].previous.value);
    }
  }
}
