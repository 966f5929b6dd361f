/**
 * Delivery lanes: one bounded queue and one worker per task with work, created
 * and forgotten on the fly, beside a bounded number of free-running steers.
 */
module Lanes {
  import opened Types

  type JobId(==, !new)

  datatype Mode = QueueMode | SteerMode

  datatype Job = Job(id: JobId, thread: ThreadId, mode: Mode)

  /** A queue is shared by its lane and its worker, so it is named. */
  type QueueId = nat

  datatype Lane = Lane(queue: QueueId, pending: nat)

  datatype Worker = Worker(thread: ThreadId, running: Option<Job>)

  const MAX_LANES := 1000
  const LANE_CAPACITY := 100
  const STEER_CAPACITY := 100

  /**
   * The lanes, the queues with the worker forked for each, the admission control,
   * and the observer's record of queued jobs in acceptance, start and finish order.
   */
  datatype State = State(
    lanes: map<ThreadId, Lane>,
    queues: map<QueueId, seq<Job>>,
    workers: map<QueueId, Worker>,
    accepting: bool,
    steerPending: nat,
    steering: set<Job>,
    checked: set<Job>,
    created: QueueId,
    accepted: seq<Job>,
    started: seq<Job>,
    finished: seq<Job>)

  const INITIAL := State(map[], map[], map[], true, 0, {}, {}, 0, [], [], [])

  datatype Event =
    | Check(job: Job)
    | Offer(job: Job)
    | Take(queue: QueueId)
    | Finish(queue: QueueId)
    | ReserveSteer(job: Job)
    | FinishSteer(job: Job)
    | StopAccepting

  predicate Enabled(s: State, e: Event) {
    match e
    case Check(job) => job !in s.checked && job !in s.steering && job !in s.accepted
    case Offer(job) => job in s.checked && job.mode == QueueMode
    case ReserveSteer(job) => job in s.checked && job.mode == SteerMode
    case Take(queue) =>
      queue in s.workers && queue in s.queues && s.workers[queue].running.None? && s.queues[queue] != []
    case Finish(queue) => queue in s.workers && s.workers[queue].running.Some?
    case FinishSteer(job) => job in s.steering
    case StopAccepting => true
  }

  /** Whether the submission that passed the check is accepted. */
  predicate Accepts(s: State, job: Job) {
    if job.mode == SteerMode then s.accepting && s.steerPending < STEER_CAPACITY
    else if job.thread in s.lanes then
      s.lanes[job.thread].queue in s.queues && |s.queues[s.lanes[job.thread].queue]| < LANE_CAPACITY
    else |s.lanes| < MAX_LANES
  }

  function Minus(n: nat): nat {
    if n == 0 then 0 else n - 1
  }

  /** `offer`: an existing lane takes the job while its queue has room, a new one is made while there is room for
      lanes. */
  function OfferStep(s: State, job: Job): State
    requires job.mode == QueueMode
  {
    var passed := s.(checked := s.checked - {job});
    if !Accepts(s, job) then passed
    else if job.thread in s.lanes then
      var lane := s.lanes[job.thread];
      passed.(queues := s.queues[lane.queue := s.queues[lane.queue] + [job]],
              lanes := s.lanes[job.thread := lane.(pending := lane.pending + 1)],
              accepted := s.accepted + [job])
    else
      passed.(queues := s.queues[s.created := [job]],
              workers := s.workers[s.created := Worker(job.thread, None)],
              lanes := s.lanes[job.thread := Lane(s.created, 1)],
              created := s.created + 1,
              accepted := s.accepted + [job])
  }

  function TakeStep(s: State, queue: QueueId): State
    requires Enabled(s, Take(queue))
  {
    var job := s.queues[queue][0];
    s.(queues := s.queues[queue := s.queues[queue][1..]],
       workers := s.workers[queue := s.workers[queue].(running := Some(job))],
       started := s.started + [job])
  }

  /** The worker's book-keeping after a job: the last one takes the lane, its queue and the worker with it. */
  function FinishStep(s: State, queue: QueueId): State
    requires Enabled(s, Finish(queue))
  {
    var thread, job := s.workers[queue].thread, s.workers[queue].running.value;
    var done := s.(finished := s.finished + [job]);
    var stopped := done.(workers := s.workers - {queue}, queues := s.queues - {queue});
    if thread !in s.lanes then stopped
    else
      var pending := Minus(s.lanes[thread].pending);
      if pending == 0 then stopped.(lanes := s.lanes - {thread})
      else
        done.(lanes := s.lanes[thread := s.lanes[thread].(pending := pending)],
              workers := s.workers[queue := Worker(thread, None)])
  }

  function Step(s: State, e: Event): State
    requires Enabled(s, e)
  {
    match e
    case Check(job) => if s.accepting then s.(checked := s.checked + {job}) else s
    case Offer(job) => OfferStep(s, job)
    case Take(queue) => TakeStep(s, queue)
    case Finish(queue) => FinishStep(s, queue)
    case ReserveSteer(job) =>
      var passed := s.(checked := s.checked - {job});
      if Accepts(s, job) then passed.(steerPending := s.steerPending + 1, steering := s.steering + {job})
      else passed
    case FinishSteer(job) => s.(steerPending := Minus(s.steerPending), steering := s.steering - {job})
    case StopAccepting => s.(accepting := false)
  }

  // ---------- what every run keeps ----------

  function OfTask(jobs: seq<Job>, t: ThreadId): seq<Job> {
    if jobs == [] then []
    else OfTask(jobs[..|jobs| - 1], t) + if jobs[|jobs| - 1].thread == t then [jobs[|jobs| - 1]] else []
  }

  lemma OfTaskAppend(jobs: seq<Job>, job: Job, t: ThreadId)
    ensures OfTask(jobs + [job], t) == OfTask(jobs, t) + if job.thread == t then [job] else []
  {
    assert (jobs + [job])[..|jobs|] == jobs;
  }

  function Queued(s: State, t: ThreadId): seq<Job> {
    if t in s.lanes && s.lanes[t].queue in s.queues then s.queues[s.lanes[t].queue] else []
  }

  function RunningJob(s: State, t: ThreadId): seq<Job> {
    if t in s.lanes && s.lanes[t].queue in s.workers && s.workers[s.lanes[t].queue].running.Some? then
      [s.workers[s.lanes[t].queue].running.value]
    else []
  }

  /** A lane has its own queue and worker, its count is its queued plus its running jobs, and all are of its task. */
  ghost predicate LaneServed(s: State, t: ThreadId) {
    t in s.lanes ==>
      var q := s.lanes[t].queue;
      && q in s.workers && q in s.queues && s.workers[q].thread == t
      && s.lanes[t].pending == |s.queues[q]| + (if s.workers[q].running.Some? then 1 else 0)
      && 0 < s.lanes[t].pending
      && |s.queues[q]| <= LANE_CAPACITY
      && (forall i :: 0 <= i < |s.queues[q]| ==> s.queues[q][i].thread == t)
      && (s.workers[q].running.Some? ==> s.workers[q].running.value.thread == t)
  }

  /** A worker serves the lane of its task: there is never a second one. */
  ghost predicate WorkerServes(s: State, q: QueueId) {
    q in s.workers ==>
      && q in s.queues && q < s.created
      && s.workers[q].thread in s.lanes && s.lanes[s.workers[q].thread].queue == q
  }

  /** Jobs of a task start in acceptance order and finish in start order, one at a time; none is lost. */
  ghost predicate InOrder(s: State, t: ThreadId) {
    && OfTask(s.accepted, t) == OfTask(s.started, t) + Queued(s, t)
    && OfTask(s.started, t) == OfTask(s.finished, t) + RunningJob(s, t)
  }

  /** The steer count is exact, so its clamp never fires. */
  ghost predicate Steered(s: State) {
    s.steerPending == |s.steering| <= STEER_CAPACITY && s.checked !! s.steering
  }

  ghost predicate Inv(s: State) {
    && (forall t :: LaneServed(s, t))
    && (forall q :: WorkerServes(s, q))
    && |s.lanes| <= MAX_LANES
    && Steered(s)
    && forall t :: InOrder(s, t)
  }

  lemma OfferKeepsLane(s: State, job: Job, t: ThreadId)
    requires Inv(s) && Enabled(s, Offer(job))
    ensures LaneServed(OfferStep(s, job), t)
  {
    assert LaneServed(s, t) && LaneServed(s, job.thread);
    if t in s.lanes { assert WorkerServes(s, s.lanes[t].queue); }
  }

  lemma OfferKeepsWorker(s: State, job: Job, q: QueueId)
    requires Inv(s) && Enabled(s, Offer(job))
    ensures WorkerServes(OfferStep(s, job), q)
  {
    assert WorkerServes(s, q) && LaneServed(s, job.thread);
  }

  /** An accepted job joins the end of its task's queue and changes no other. */
  lemma OfferQueues(s: State, job: Job, t: ThreadId)
    requires Inv(s) && Enabled(s, Offer(job))
    ensures Queued(OfferStep(s, job), t) == Queued(s, t) + if Accepts(s, job) && job.thread == t then [job] else []
    ensures RunningJob(OfferStep(s, job), t) == RunningJob(s, t)
  {
    assert LaneServed(s, t) && LaneServed(s, job.thread);
    if t in s.lanes { assert WorkerServes(s, s.lanes[t].queue); }
  }

  lemma OfferKeepsOrder(s: State, job: Job, t: ThreadId)
    requires Inv(s) && Enabled(s, Offer(job))
    ensures InOrder(OfferStep(s, job), t)
  {
    hide OfTask, Queued, RunningJob;
    OfferQueues(s, job, t);
    OfTaskAppend(s.accepted, job, t);
    OrderExtends(s, OfferStep(s, job), t, if Accepts(s, job) && job.thread == t then [job] else []);
  }

  lemma OrderExtends(s: State, s': State, t: ThreadId, tail: seq<Job>)
    requires InOrder(s, t) && s'.started == s.started && s'.finished == s.finished
    requires OfTask(s'.accepted, t) == OfTask(s.accepted, t) + tail
    requires Queued(s', t) == Queued(s, t) + tail && RunningJob(s', t) == RunningJob(s, t)
    ensures InOrder(s', t)
  {
    assert OfTask(s.accepted, t) + tail == OfTask(s.started, t) + (Queued(s, t) + tail);
  }

  lemma TakeKeepsLane(s: State, queue: QueueId, t: ThreadId)
    requires Inv(s) && Enabled(s, Take(queue))
    ensures LaneServed(TakeStep(s, queue), t)
  {
    assert LaneServed(s, t) && WorkerServes(s, queue);
  }

  lemma TakeKeepsWorker(s: State, queue: QueueId, q: QueueId)
    requires Inv(s) && Enabled(s, Take(queue))
    ensures WorkerServes(TakeStep(s, queue), q)
  {
    assert WorkerServes(s, q);
  }

  lemma TakeKeepsOrder(s: State, queue: QueueId, t: ThreadId)
    requires Inv(s) && Enabled(s, Take(queue))
    ensures InOrder(TakeStep(s, queue), t)
  {
    hide OfTask, Queued, RunningJob;
    TakeQueues(s, queue, t);
    OfTaskAppend(s.started, s.queues[queue][0], t);
    OrderStarts(s, TakeStep(s, queue), t, if s.workers[queue].thread == t then [s.queues[queue][0]] else []);
  }

  /** Taking moves the first queued job of the task to its worker. */
  lemma TakeQueues(s: State, queue: QueueId, t: ThreadId)
    requires Inv(s) && Enabled(s, Take(queue))
    ensures var s', job := TakeStep(s, queue), s.queues[queue][0];
            && (job.thread == t <==> s.workers[queue].thread == t)
            && (s.workers[queue].thread == t ==>
                  Queued(s, t) == [job] + Queued(s', t) && RunningJob(s, t) == [] && RunningJob(s', t) == [job])
            && (s.workers[queue].thread != t ==>
                  Queued(s, t) == Queued(s', t) && RunningJob(s, t) == RunningJob(s', t))
  {
    assert WorkerServes(s, queue) && LaneServed(s, t) && LaneServed(s, s.workers[queue].thread);
    assert s.queues[queue] == [s.queues[queue][0]] + s.queues[queue][1..];
  }

  lemma OrderStarts(s: State, s': State, t: ThreadId, tail: seq<Job>)
    requires InOrder(s, t) && s'.accepted == s.accepted && s'.finished == s.finished
    requires OfTask(s'.started, t) == OfTask(s.started, t) + tail
    requires Queued(s, t) == tail + Queued(s', t) && RunningJob(s', t) == RunningJob(s, t) + tail
    ensures InOrder(s', t)
  {
    assert OfTask(s.started, t) + (tail + Queued(s', t)) == OfTask(s.started, t) + tail + Queued(s', t);
    assert OfTask(s.finished, t) + RunningJob(s, t) + tail == OfTask(s.finished, t) + (RunningJob(s, t) + tail);
  }

  lemma FinishKeepsLane(s: State, queue: QueueId, t: ThreadId)
    requires Inv(s) && Enabled(s, Finish(queue))
    ensures LaneServed(FinishStep(s, queue), t)
  {
    assert LaneServed(s, t) && WorkerServes(s, queue) && LaneServed(s, s.workers[queue].thread);
  }

  lemma FinishKeepsWorker(s: State, queue: QueueId, q: QueueId)
    requires Inv(s) && Enabled(s, Finish(queue))
    ensures WorkerServes(FinishStep(s, queue), q)
  {
    assert WorkerServes(s, q) && WorkerServes(s, queue) && LaneServed(s, s.workers[queue].thread);
  }

  /** Finishing frees the task's worker and touches no queue. */
  lemma FinishQueues(s: State, queue: QueueId, t: ThreadId)
    requires Inv(s) && Enabled(s, Finish(queue))
    ensures Queued(FinishStep(s, queue), t) == Queued(s, t)
    ensures s.workers[queue].thread != t ==> RunningJob(FinishStep(s, queue), t) == RunningJob(s, t)
    ensures s.workers[queue].thread == t ==>
              RunningJob(FinishStep(s, queue), t) == [] && RunningJob(s, t) == [s.workers[queue].running.value]
    ensures (s.workers[queue].running.value.thread == t) <==> s.workers[queue].thread == t
  {
    assert WorkerServes(s, queue) && LaneServed(s, t) && LaneServed(s, s.workers[queue].thread);
  }

  lemma FinishKeepsOrder(s: State, queue: QueueId, t: ThreadId)
    requires Inv(s) && Enabled(s, Finish(queue))
    ensures InOrder(FinishStep(s, queue), t)
  {
    hide OfTask, Queued, RunningJob;
    FinishQueues(s, queue, t);
    OfTaskAppend(s.finished, s.workers[queue].running.value, t);
    OrderFinishes(s, FinishStep(s, queue), t,
                  if s.workers[queue].thread == t then [s.workers[queue].running.value] else []);
  }

  lemma OrderFinishes(s: State, s': State, t: ThreadId, tail: seq<Job>)
    requires InOrder(s, t) && s'.accepted == s.accepted && s'.started == s.started
    requires OfTask(s'.finished, t) == OfTask(s.finished, t) + tail
    requires Queued(s', t) == Queued(s, t) && RunningJob(s, t) == tail + RunningJob(s', t)
    ensures InOrder(s', t)
  {
    assert OfTask(s.finished, t) + (tail + RunningJob(s', t)) == OfTask(s.finished, t) + tail + RunningJob(s', t);
  }

  /** Admission and steers leave the lanes alone. */
  lemma AdmissionKeeps(s: State, s': State)
    requires Inv(s) && Steered(s')
    requires s'.lanes == s.lanes && s'.queues == s.queues && s'.workers == s.workers && s'.created == s.created
    requires s'.accepted == s.accepted && s'.started == s.started && s'.finished == s.finished
    ensures Inv(s')
  {
    forall t ensures LaneServed(s', t) && InOrder(s', t) { assert LaneServed(s, t) && InOrder(s, t); }
    forall q ensures WorkerServes(s', q) { assert WorkerServes(s, q); }
  }

  lemma OfferKeeps(s: State, job: Job)
    requires Inv(s) && Enabled(s, Offer(job))
    ensures Inv(OfferStep(s, job))
  {
    hide LaneServed, WorkerServes, InOrder;
    var s' := OfferStep(s, job);
    forall t ensures LaneServed(s', t) { OfferKeepsLane(s, job, t); }
    forall t ensures InOrder(s', t) { OfferKeepsOrder(s, job, t); }
    forall q ensures WorkerServes(s', q) { OfferKeepsWorker(s, job, q); }
  }

  lemma TakeKeeps(s: State, queue: QueueId)
    requires Inv(s) && Enabled(s, Take(queue))
    ensures Inv(TakeStep(s, queue))
  {
    hide LaneServed, WorkerServes, InOrder;
    var s' := TakeStep(s, queue);
    forall t ensures LaneServed(s', t) { TakeKeepsLane(s, queue, t); }
    forall t ensures InOrder(s', t) { TakeKeepsOrder(s, queue, t); }
    forall q ensures WorkerServes(s', q) { TakeKeepsWorker(s, queue, q); }
  }

  lemma FinishKeeps(s: State, queue: QueueId)
    requires Inv(s) && Enabled(s, Finish(queue))
    ensures Inv(FinishStep(s, queue))
  {
    hide LaneServed, WorkerServes, InOrder;
    var s' := FinishStep(s, queue);
    forall t ensures LaneServed(s', t) { FinishKeepsLane(s, queue, t); }
    forall t ensures InOrder(s', t) { FinishKeepsOrder(s, queue, t); }
    forall q ensures WorkerServes(s', q) { FinishKeepsWorker(s, queue, q); }
  }

  lemma StepKeeps(s: State, e: Event)
    requires Inv(s) && Enabled(s, e)
    ensures Inv(Step(s, e))
  {
    hide Inv, OfferStep, TakeStep, FinishStep;
    match e
    case Offer(job) => OfferKeeps(s, job);
    case Take(queue) => TakeKeeps(s, queue);
    case Finish(queue) => FinishKeeps(s, queue);
    case _ => AdmissionStepKeeps(s, e);
  }

  lemma AdmissionStepKeeps(s: State, e: Event)
    requires Inv(s) && Enabled(s, e) && (e.Check? || e.ReserveSteer? || e.FinishSteer? || e.StopAccepting?)
    ensures Inv(Step(s, e))
  {
    AdmissionSteers(s, e);
    AdmissionLeavesLanes(s, e);
    hide LaneServed, WorkerServes, InOrder, Steered, Step, Enabled;
    AdmissionKeeps(s, Step(s, e));
  }

  lemma AdmissionLeavesLanes(s: State, e: Event)
    requires Enabled(s, e) && (e.Check? || e.ReserveSteer? || e.FinishSteer? || e.StopAccepting?)
    ensures var s' := Step(s, e);
            && s'.lanes == s.lanes && s'.queues == s.queues && s'.workers == s.workers && s'.created == s.created
            && s'.accepted == s.accepted && s'.started == s.started && s'.finished == s.finished
  {
  }

  lemma AdmissionSteers(s: State, e: Event)
    requires Steered(s) && Enabled(s, e) && (e.Check? || e.ReserveSteer? || e.FinishSteer? || e.StopAccepting?)
    ensures Steered(Step(s, e))
  {
    if e.ReserveSteer? { assert |s.steering + {e.job}| == |s.steering| + 1; }
    if e.FinishSteer? { assert |s.steering - {e.job}| == |s.steering| - 1; }
  }

  // ---------- runs ----------

  ghost predicate Run(states: seq<State>, events: seq<Event>) {
    && |states| == |events| + 1
    && states[0] == INITIAL
    && forall i :: 0 <= i < |events| ==> Enabled(states[i], events[i]) && states[i + 1] == Step(states[i], events[i])
  }

  /** The sum of the lane counts, as `drain` adds them up. */
  ghost function TotalPending(lanes: map<ThreadId, Lane>): nat
    decreases |lanes|
  {
    if lanes == map[] then 0
    else
      var t :| t in lanes;
      lanes[t].pending + TotalPending(lanes - {t})
  }

  lemma {:induction false} TotalWithout(lanes: map<ThreadId, Lane>, t: ThreadId)
    requires t in lanes
    ensures TotalPending(lanes) == lanes[t].pending + TotalPending(lanes - {t})
    decreases |lanes|
  {
    var u :| u in lanes && TotalPending(lanes) == lanes[u].pending + TotalPending(lanes - {u});
    if u != t {
      TotalWithout(lanes - {u}, t);
      TotalWithout(lanes - {t}, u);
      assert lanes - {u} - {t} == lanes - {t} - {u};
    }
  }

  lemma TotalUpdated(lanes: map<ThreadId, Lane>, t: ThreadId, lane: Lane)
    ensures TotalPending(lanes[t := lane]) == lane.pending + TotalPending(lanes - {t})
  {
    TotalWithout(lanes[t := lane], t);
    assert lanes[t := lane] - {t} == lanes - {t};
  }

  /** Nothing is lost or invented: what was accepted is what finished plus what the lanes count. */
  ghost predicate Conserved(s: State) {
    |s.accepted| == |s.finished| + TotalPending(s.lanes)
  }

  lemma StepConserves(s: State, e: Event)
    requires Inv(s) && Conserved(s) && Enabled(s, e)
    ensures Conserved(Step(s, e))
  {
    match e
    case Offer(job) => OfferConserves(s, job);
    case Finish(queue) => FinishConserves(s, queue);
    case _ =>
  }

  lemma OfferConserves(s: State, job: Job)
    requires Conserved(s) && Enabled(s, Offer(job))
    ensures Conserved(OfferStep(s, job))
  {
    if Accepts(s, job) {
      TotalUpdated(s.lanes, job.thread, OfferStep(s, job).lanes[job.thread]);
      if job.thread in s.lanes { TotalWithout(s.lanes, job.thread); }
      else { assert s.lanes - {job.thread} == s.lanes; }
    }
  }

  lemma FinishConserves(s: State, queue: QueueId)
    requires Inv(s) && Conserved(s) && Enabled(s, Finish(queue))
    ensures Conserved(FinishStep(s, queue))
  {
    var t := s.workers[queue].thread;
    assert WorkerServes(s, queue) && LaneServed(s, t);
    TotalWithout(s.lanes, t);
    if s.lanes[t].pending != 1 { TotalUpdated(s.lanes, t, FinishStep(s, queue).lanes[t]); }
  }

  lemma {:induction false} RunKeeps(states: seq<State>, events: seq<Event>, i: nat)
    requires Run(states, events) && i < |states|
    ensures Inv(states[i]) && Conserved(states[i])
  {
    if i > 0 {
      RunKeeps(states, events, i - 1);
      assert Enabled(states[i - 1], events[i - 1]);
      StepKeeps(states[i - 1], events[i - 1]);
      StepConserves(states[i - 1], events[i - 1]);
    } else {
      forall t ensures InOrder(INITIAL, t) {}
    }
  }

  // ---------- main results ----------

  /** In every interleaving the jobs of a task run one at a time in acceptance order, across lanes that come and go. */
  lemma AcceptedInOrder(states: seq<State>, events: seq<Event>, i: nat, t: ThreadId)
    requires Run(states, events) && i < |states|
    ensures var s := states[i];
            && OfTask(s.accepted, t) == OfTask(s.finished, t) + RunningJob(s, t) + Queued(s, t)
            && OfTask(s.started, t) <= OfTask(s.accepted, t)
            && |RunningJob(s, t)| <= 1
            && |s.accepted| == |s.finished| + TotalPending(s.lanes)
  {
    RunKeeps(states, events, i);
    assert InOrder(states[i], t);
  }

  /** One worker per lane and one lane per worker, with exact and bounded counts. */
  lemma LanesAreBounded(states: seq<State>, events: seq<Event>, i: nat, t: ThreadId, p: QueueId, q: QueueId)
    requires Run(states, events) && i < |states|
    ensures var s := states[i];
            && |s.lanes| <= MAX_LANES
            && s.steerPending == |s.steering| <= STEER_CAPACITY
            && (t in s.lanes ==>
                  && s.lanes[t].queue in s.workers
                  && s.lanes[t].pending == |Queued(s, t)| + |RunningJob(s, t)|
                  && 0 < s.lanes[t].pending <= LANE_CAPACITY + 1)
            && (p in s.workers && q in s.workers && s.workers[p].thread == s.workers[q].thread ==> p == q)
            && (p in s.workers ==> s.workers[p].thread in s.lanes)
  {
    RunKeeps(states, events, i);
    assert LaneServed(states[i], t) && WorkerServes(states[i], p) && WorkerServes(states[i], q);
  }

  /** No queue-mode submission has passed the accepting check without being offered yet. */
  predicate NoneMidway(s: State) {
    forall job :: job in s.checked ==> job.mode == SteerMode
  }

  /** Everything accepted so far has finished. */
  ghost predicate Drained(s: State) {
    && s.lanes == map[] && s.steering == {} && |s.accepted| == |s.finished|
    && forall t :: OfTask(s.accepted, t) == OfTask(s.finished, t)
  }

  lemma NoLanesMeansFinished(s: State)
    requires Inv(s) && Conserved(s) && s.lanes == map[] && s.steering == {}
    ensures Drained(s)
  {
    forall t ensures OfTask(s.accepted, t) == OfTask(s.finished, t) { assert InOrder(s, t); }
  }

  /** Once closed to new work with no submission midway, the lanes only empty and the steers only end. */
  lemma {:induction false} ClosedOnlyShrinks(states: seq<State>, events: seq<Event>, i: nat, j: nat)
    requires Run(states, events) && i <= j < |states|
    requires !states[i].accepting && NoneMidway(states[i])
    ensures !states[j].accepting && NoneMidway(states[j])
    ensures states[j].lanes.Keys <= states[i].lanes.Keys && states[j].steering <= states[i].steering
    ensures states[j].accepted == states[i].accepted
  {
    if i < j {
      ClosedOnlyShrinks(states, events, i, j - 1);
      RunKeeps(states, events, j - 1);
      ClosedStepShrinks(states[j - 1], events[j - 1]);
    }
  }

  lemma ClosedStepShrinks(s: State, e: Event)
    requires Inv(s) && Enabled(s, e) && !s.accepting && NoneMidway(s)
    ensures var s' := Step(s, e);
            && !s'.accepting && NoneMidway(s') && s'.accepted == s.accepted
            && s'.lanes.Keys <= s.lanes.Keys && s'.steering <= s.steering
  {
    if e.Finish? { assert WorkerServes(s, e.queue); }
  }

  /** While there is a lane, the lane counts do not add up to zero. */
  lemma LanesCount(s: State)
    requires Inv(s)
    ensures s.lanes != map[] ==> TotalPending(s.lanes) > 0
  {
    if s.lanes != map[] {
      var t :| t in s.lanes;
      TotalWithout(s.lanes, t);
      assert LaneServed(s, t);
    }
  }

  /** `drain` reads the lanes first and the steers later; a zero total then means all accepted work has finished. */
  lemma DrainIsTrue(states: seq<State>, events: seq<Event>, i: nat, j: nat, k: nat)
    requires Run(states, events) && i <= j <= k < |states|
    requires !states[i].accepting && NoneMidway(states[i])
    requires states[j].steerPending + TotalPending(states[i].lanes) == 0
    ensures Drained(states[k])
  {
    RunKeeps(states, events, i);
    RunKeeps(states, events, j);
    RunKeeps(states, events, k);
    LanesCount(states[i]);
    ClosedOnlyShrinks(states, events, i, k);
    ClosedOnlyShrinks(states, events, i, j);
    assert states[j].steering == {};
    SteersStayEmpty(states, events, i, j, k);
    NoLanesMeansFinished(states[k]);
  }

  lemma SteersStayEmpty(states: seq<State>, events: seq<Event>, i: nat, j: nat, k: nat)
    requires Run(states, events) && i <= j <= k < |states|
    requires !states[i].accepting && NoneMidway(states[i]) && states[j].steering == {}
    ensures states[k].steering == {}
  {
    ClosedOnlyShrinks(states, events, i, j);
    ClosedOnlyShrinks(states, events, j, k);
  }

  /** Nothing new is let in: no submission passes the check, no steer is reserved, and what is accepted was midway. */
  ghost predicate LetsNothingIn(s: State, after: State) {
    && !after.accepting
    && after.checked <= s.checked && after.steering <= s.steering
    && (after.accepted == s.accepted
        || exists job :: job in s.checked && job.mode == QueueMode && after.accepted == s.accepted + [job])
  }

  /** From the moment the service stops accepting, every step lets nothing new in. */
  lemma ClosedLetsNothingIn(s: State, e: Event)
    requires Enabled(s, e) && !s.accepting
    ensures LetsNothingIn(s, Step(s, e))
  {
  }

  /** The condition is exact: a closed, drained service stays drained under every step if and only if nothing is
      midway. */
  lemma DrainedStaysExactlyWhenNoneMidway(s: State)
    requires Inv(s) && Conserved(s) && Drained(s) && !s.accepting
    ensures (forall e :: Enabled(s, e) ==> Drained(Step(s, e)) && !Step(s, e).accepting) <==> NoneMidway(s)
  {
    if NoneMidway(s) {
      forall q ensures q !in s.workers { assert WorkerServes(s, q); }
    } else {
      var job :| job in s.checked && job.mode == QueueMode;
      assert Enabled(s, Offer(job));
      assert job.thread in Step(s, Offer(job)).lanes;
    }
  }

  /** It does happen: a submission passes the check, the service closes and is drained, and the offer undoes it. */
  lemma OfferAfterDrain(job: Job)
    requires job.mode == QueueMode
    ensures var checked := Step(INITIAL, Check(job));
            var closed := Step(checked, StopAccepting);
            && Run([INITIAL, checked, closed], [Check(job), StopAccepting])
            && Drained(closed) && !closed.accepting && !NoneMidway(closed)
            && Enabled(closed, Offer(job)) && !Drained(Step(closed, Offer(job)))
  {
    var checked := Step(INITIAL, Check(job));
    var closed := Step(checked, StopAccepting);
    assert job in closed.checked;
    assert job.thread in Step(closed, Offer(job)).lanes;
  }

  // ---------- what is taken ----------

  /** A lane exists exactly while its task has an accepted job that is not finished. */
  lemma LaneExactlyWhileUnfinished(s: State, t: ThreadId)
    requires Inv(s)
    ensures t in s.lanes <==> |OfTask(s.accepted, t)| > |OfTask(s.finished, t)|
    ensures |OfTask(s.accepted, t)| >= |OfTask(s.started, t)| >= |OfTask(s.finished, t)|
    ensures t in s.lanes ==>
              s.lanes[t].queue in s.queues
              && |s.queues[s.lanes[t].queue]| == |OfTask(s.accepted, t)| - |OfTask(s.started, t)|
  {
    assert InOrder(s, t) && LaneServed(s, t);
  }

  /** In every run an offered job is taken exactly if its task has unfinished jobs and fewer than a hundred of them
      wait, or has none and there are fewer than a thousand lanes; otherwise it is dropped and nothing
      else changes. */
  lemma OfferIsTakenExactlyWhen(states: seq<State>, events: seq<Event>, i: nat, job: Job)
    requires Run(states, events) && i < |events| && events[i] == Offer(job)
    ensures var s, after, t := states[i], states[i + 1], job.thread;
            var unfinished := |OfTask(s.accepted, t)| - |OfTask(s.finished, t)|;
            var waiting := |OfTask(s.accepted, t)| - |OfTask(s.started, t)|;
            && (after.accepted == s.accepted + [job]
                <==> (unfinished > 0 && waiting < 100) || (unfinished == 0 && |s.lanes| < 1000))
            && (after.accepted != s.accepted + [job] ==> after == s.(checked := s.checked - {job}))
  {
    hide OfTask, Inv;
    RunKeeps(states, events, i);
    assert Enabled(states[i], events[i]) && states[i + 1] == Step(states[i], events[i]);
    LaneExactlyWhileUnfinished(states[i], job.thread);
    assert |states[i].accepted + [job]| != |states[i].accepted|;
  }

  /** In every run a submission passes the check exactly while the service accepts. */
  lemma CheckPassesExactlyWhileAccepting(states: seq<State>, events: seq<Event>, i: nat, job: Job)
    requires Run(states, events) && i < |events| && events[i] == Check(job)
    ensures job in states[i + 1].checked <==> states[i].accepting
  {
    assert Enabled(states[i], events[i]) && states[i + 1] == Step(states[i], events[i]);
  }

  /** In every run a steer is reserved exactly while the service accepts and fewer than a hundred steers run. */
  lemma SteerIsReservedExactlyWhen(states: seq<State>, events: seq<Event>, i: nat, job: Job)
    requires Run(states, events) && i < |events| && events[i] == ReserveSteer(job)
    ensures job in states[i + 1].steering <==> states[i].accepting && |states[i].steering| < 100
  {
    RunKeeps(states, events, i);
    assert Enabled(states[i], events[i]) && states[i + 1] == Step(states[i], events[i]);
    assert job !in states[i].steering;
  }

  /** In every run a task with unfinished jobs has a worker that can go on: it can take the next job or finish the one
      it runs. */
  lemma NoJobIsStuck(states: seq<State>, events: seq<Event>, i: nat, t: ThreadId)
    requires Run(states, events) && i < |states|
    requires |OfTask(states[i].accepted, t)| > |OfTask(states[i].finished, t)|
    ensures t in states[i].lanes
    ensures var q := states[i].lanes[t].queue; Enabled(states[i], Take(q)) || Enabled(states[i], Finish(q))
  {
    RunKeeps(states, events, i);
    LaneExactlyWhileUnfinished(states[i], t);
    assert LaneServed(states[i], t);
  }
}
