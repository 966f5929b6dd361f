/** The lanes as the service updates them, step by step. */
module LaneService {
  import opened Types
  import opened Lanes

  class DeliveryLanes {
    var lanes: map<ThreadId, Lane>
    var queues: map<QueueId, seq<Job>>
    var workers: map<QueueId, Worker>
    var accepting: bool
    var steerPending: nat
    var created: QueueId
    ghost var steering: set<Job>
    ghost var checked: set<Job>
    ghost var accepted: seq<Job>
    ghost var started: seq<Job>
    ghost var finished: seq<Job>

    ghost function View(): State
      reads this
    {
      State(lanes, queues, workers, accepting, steerPending, steering, checked, created, accepted, started, finished)
    }

    constructor ()
      ensures View() == INITIAL && Inv(View())
    {
      lanes, queues, workers := map[], map[], map[];
      accepting, steerPending, created := true, 0, 0;
      steering, checked, accepted, started, finished := {}, {}, [], [], [];
      new;
      RunKeeps([INITIAL], [], 0);
    }

    /** A submission reads the flag and goes on only while the service accepts. */
    method CheckAccepting(job: Job) returns (open: bool)
      requires Inv(View()) && Enabled(View(), Check(job))
      modifies this`checked
      ensures Inv(View()) && View() == Step(old(View()), Check(job))
      ensures (open <==> job in checked) && (open <==> accepting)
    {
      StepKeeps(View(), Check(job));
      open := accepting;
      if open { checked := checked + {job}; }
    }

    /** A task with a lane takes a job while fewer than a hundred wait, one without while there is room for a lane. */
    method Offer(job: Job) returns (taken: bool)
      requires Inv(View()) && Enabled(View(), Event.Offer(job))
      modifies this
      ensures Inv(View()) && View() == Step(old(View()), Event.Offer(job))
      ensures taken <==> accepted == old(accepted) + [job]
      ensures taken <==> if job.thread in old(lanes) then |old(Queued(View(), job.thread))| < 100
                         else |old(lanes)| < 1000
      ensures taken ==> Queued(View(), job.thread) == old(Queued(View(), job.thread)) + [job]
      ensures !taken ==> accepted == old(accepted) && lanes == old(lanes) && queues == old(queues)
    {
      hide Inv, InOrder, WorkerServes, LaneServed, Queued, RunningJob;
      StepKeeps(View(), Event.Offer(job));
      OfferQueues(View(), job, job.thread);
      if job.thread in lanes { QueueExists(View(), job.thread); }
      checked := checked - {job};
      if job.thread in lanes {
        var lane := lanes[job.thread];
        taken := |queues[lane.queue]| < LANE_CAPACITY;
        if taken {
          queues := queues[lane.queue := queues[lane.queue] + [job]];
          lanes := lanes[job.thread := lane.(pending := lane.pending + 1)];
          accepted := accepted + [job];
        }
        return;
      }
      if |lanes| >= MAX_LANES { return false; }
      OpenLane(job);
      taken := true;
    }

    /** A new queue with its first job, a worker forked for it, and the lane that names it. */
    method OpenLane(job: Job)
      modifies this`queues, this`workers, this`lanes, this`created, this`accepted
      ensures View() == old(View()).(queues := old(queues)[old(created) := [job]],
                                     workers := old(workers)[old(created) := Worker(job.thread, None)],
                                     lanes := old(lanes)[job.thread := Lane(old(created), 1)],
                                     created := old(created) + 1,
                                     accepted := old(accepted) + [job])
    {
      queues := queues[created := [job]];
      workers := workers[created := Worker(job.thread, None)];
      lanes := lanes[job.thread := Lane(created, 1)];
      created := created + 1;
      accepted := accepted + [job];
    }

    method Take(queue: QueueId) returns (job: Job)
      requires Inv(View()) && Enabled(View(), Event.Take(queue))
      modifies this
      ensures Inv(View()) && View() == Step(old(View()), Event.Take(queue))
      ensures old(Queued(View(), job.thread)) == [job] + Queued(View(), job.thread)
      ensures old(RunningJob(View(), job.thread)) == [] && RunningJob(View(), job.thread) == [job]
    {
      StepKeeps(View(), Event.Take(queue));
      TakeQueues(View(), queue, queues[queue][0].thread);
      job := queues[queue][0];
      queues := queues[queue := queues[queue][1..]];
      workers := workers[queue := workers[queue].(running := Some(job))];
      started := started + [job];
    }

    /** After a job the worker decides, in one step with the lane, whether it goes on. */
    method Complete(queue: QueueId) returns (goesOn: bool)
      requires Inv(View()) && Enabled(View(), Finish(queue))
      modifies this
      ensures Inv(View()) && View() == Step(old(View()), Finish(queue))
      ensures goesOn <==> queue in workers
      ensures goesOn <==> old(Queued(View(), workers[queue].thread)) != []
    {
      StepKeeps(View(), Finish(queue));
      assert WorkerServes(View(), queue) && LaneServed(View(), workers[queue].thread);
      var thread := workers[queue].thread;
      finished := finished + [workers[queue].running.value];
      goesOn := false;
      if thread in lanes {
        var pending := Minus(lanes[thread].pending);
        if pending == 0 {
          lanes := lanes - {thread};
        } else {
          lanes := lanes[thread := lanes[thread].(pending := pending)];
          goesOn := true;
        }
      }
      if goesOn {
        workers := workers[queue := Worker(thread, None)];
      } else {
        workers := workers - {queue};
        queues := queues - {queue};
      }
    }

    method ReserveSteer(job: Job) returns (reserved: bool)
      requires Inv(View()) && Enabled(View(), Event.ReserveSteer(job))
      modifies this`checked, this`steerPending, this`steering
      ensures Inv(View()) && View() == Step(old(View()), Event.ReserveSteer(job))
      ensures reserved <==> job in steering
      ensures reserved <==> accepting && |old(steering)| < 100
      ensures steerPending == |steering| <= STEER_CAPACITY
    {
      hide Inv;
      StepKeeps(View(), Event.ReserveSteer(job));
      SteersCounted(View());
      SteersCounted(Step(View(), Event.ReserveSteer(job)));
      checked := checked - {job};
      if !accepting || steerPending >= STEER_CAPACITY { return false; }
      steerPending := steerPending + 1;
      steering := steering + {job};
      reserved := true;
    }

    method CompleteSteer(job: Job)
      requires Inv(View()) && Enabled(View(), FinishSteer(job))
      modifies this`steerPending, this`steering
      ensures Inv(View()) && View() == Step(old(View()), FinishSteer(job))
      ensures job !in steering && steerPending == |steering| == old(steerPending) - 1
    {
      StepKeeps(View(), FinishSteer(job));
      steerPending := Minus(steerPending);
      steering := steering - {job};
    }

    /** Whatever happens next lets nothing new in; only a queue-mode submission already midway may still be taken. */
    method StopAccepting()
      requires Inv(View())
      modifies this`accepting
      ensures Inv(View()) && View() == Step(old(View()), Event.StopAccepting)
      ensures forall e :: Enabled(View(), e) ==> LetsNothingIn(View(), Step(View(), e))
    {
      StepKeeps(View(), Event.StopAccepting);
      accepting := false;
      forall e | Enabled(View(), e) ensures LetsNothingIn(View(), Step(View(), e)) { ClosedLetsNothingIn(View(), e); }
    }

    /** The first half of one `drain` poll: add up the lane counts. */
    method PendingInLanes() returns (total: nat)
      ensures total == TotalPending(lanes)
    {
      total := 0;
      var left := lanes;
      while left != map[]
        invariant total + TotalPending(left) == TotalPending(lanes)
        decreases |left|
      {
        var t :| t in left;
        TotalWithout(left, t);
        total := total + left[t].pending;
        left := left - {t};
      }
    }
  }

  lemma QueueExists(s: State, t: ThreadId)
    requires Inv(s) && t in s.lanes
    ensures s.lanes[t].queue in s.queues && Queued(s, t) == s.queues[s.lanes[t].queue]
  {
    assert LaneServed(s, t);
  }

  lemma SteersCounted(s: State)
    requires Inv(s)
    ensures s.steerPending == |s.steering| <= STEER_CAPACITY && s.checked !! s.steering
  {
  }
}
