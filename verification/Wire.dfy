/** The pending-request table of one raw Desktop connection. */
module Wire {
  import opened Types

  type RequestId(==, !new)

  /** Whether the request may have reached Desktop, as the error tells its caller. */
  datatype WriteState = NotWritten | MaybeWritten

  datatype Failure = ConnectionClosed | InvalidTimeout | PendingLimit | FrameInvalid | WriteFailed | RequestTimeout

  datatype Settlement = Resolved | Failed(failure: Failure, writeState: WriteState)

  /**
   * `pending` holds the written mark of each open request. The rest is the observer's: `reached` are the requests whose
   * frame was handed to the socket's write, `threw` those for which that very call then threw.
   */
  datatype State = State(
    pending: map<RequestId, bool>,
    ended: bool,
    settled: map<RequestId, Settlement>,
    reached: set<RequestId>,
    threw: set<RequestId>)

  const INITIAL := State(map[], false, map[], {}, {})

  datatype Limits = Limits(maxPending: nat, minTimeout: int, maxTimeout: int)

  /** What happens to one call of `request` outside the table: the socket, the encoder and the write. */
  datatype Attempt = Attempt(socketUp: bool, timeoutMs: int, encodes: bool, writeReturns: bool)

  datatype Event =
    | Request(id: RequestId, attempt: Attempt)
    | Response(id: RequestId)
    | Expire(id: RequestId)
    | WriteError(id: RequestId)
    | End(framing: bool)
    | Close

  function Label(written: bool): WriteState {
    if written then MaybeWritten else NotWritten
  }

  function Invalid(s: State, limits: Limits, attempt: Attempt): Option<Failure> {
    if s.ended || !attempt.socketUp then Some(ConnectionClosed)
    else if attempt.timeoutMs < limits.minTimeout || attempt.timeoutMs > limits.maxTimeout then Some(InvalidTimeout)
    else if |s.pending| >= limits.maxPending then Some(PendingLimit)
    else None
  }

  function Settle(s: State, id: RequestId, settlement: Settlement): State {
    s.(pending := s.pending - {id}, settled := s.settled[id := settlement])
  }

  function RejectAll(s: State, failure: Failure): State {
    s.(pending := map[],
       settled := s.settled + map id | id in s.pending :: Failed(failure, Label(s.pending[id])))
  }

  /** The frame was handed to the socket, and the call returned. */
  function Written(s: State, id: RequestId): State {
    s.(reached := s.reached + {id}, pending := s.pending[id := true])
  }

  /** The frame was handed to the socket, and the call threw. */
  function Thrown(s: State, id: RequestId): State {
    Settle(s.(reached := s.reached + {id}, threw := s.threw + {id}), id, Failed(WriteFailed, NotWritten))
  }

  function Step(s: State, limits: Limits, e: Event): State {
    match e
    case Request(id, attempt) =>
      var invalid := Invalid(s, limits, attempt);
      if invalid.Some? then Settle(s, id, Failed(invalid.value, NotWritten))
      else if !attempt.encodes then Settle(s, id, Failed(FrameInvalid, NotWritten))
      else if attempt.writeReturns then Written(s, id)
      else Thrown(s, id)
    case Response(id) => if id in s.pending then Settle(s, id, Resolved) else s
    case Expire(id) => if id in s.pending then Settle(s, id, Failed(RequestTimeout, Label(s.pending[id]))) else s
    case WriteError(id) => if id in s.pending then Settle(s, id, Failed(WriteFailed, Label(s.pending[id]))) else s
    case End(framing) =>
      if s.ended then s else RejectAll(s.(ended := true), if framing then FrameInvalid else ConnectionClosed)
    case Close => if s.ended then s else RejectAll(s.(ended := true), ConnectionClosed)
  }

  /** Request identities are fresh. */
  predicate Enabled(s: State, e: Event) {
    e.Request? ==> e.id !in s.pending && e.id !in s.settled
  }

  ghost predicate Run(states: seq<State>, events: seq<Event>, limits: Limits) {
    && |states| == |events| + 1
    && states[0] == INITIAL
    && forall i :: 0 <= i < |events| ==>
         Enabled(states[i], events[i]) && states[i + 1] == Step(states[i], limits, events[i])
  }

  predicate Issued(s: State, id: RequestId) {
    id in s.pending || id in s.settled
  }

  /** A rejection that promises nothing was written. */
  predicate SaysNotWritten(settlement: Settlement) {
    settlement.Failed? && settlement.writeState == NotWritten
  }

  /** The frame was handed over and the call came back: from then on Desktop may have it. */
  predicate MayHaveIt(s: State, id: RequestId) {
    id in s.reached && id !in s.threw
  }

  /** Open requests carry the mark and may be with Desktop; a settlement says not-written exactly when that cannot
      be. */
  ghost predicate Honest(s: State) {
    && s.pending.Keys !! s.settled.Keys
    && (forall id :: id in s.pending ==> s.pending[id] && MayHaveIt(s, id))
    && (forall id :: id in s.settled ==> (SaysNotWritten(s.settled[id]) <==> !MayHaveIt(s, id)))
    && (forall id :: id in s.reached ==> Issued(s, id))
    && (forall id :: id in s.threw ==> id in s.reached && id in s.settled)
  }

  ghost predicate Inv(s: State, limits: Limits) {
    Honest(s) && |s.pending| <= limits.maxPending && (s.ended ==> s.pending == map[])
  }

  /** Nothing issued is forgotten, and settlements are only added. */
  ghost predicate Follows(s: State, after: State) {
    && (forall id :: Issued(s, id) ==> Issued(after, id))
    && (forall id :: id in s.settled ==> id in after.settled && after.settled[id] == s.settled[id])
  }

  lemma SettleKeeps(s: State, limits: Limits, id: RequestId, settlement: Settlement)
    requires Inv(s, limits) && id !in s.settled
    requires SaysNotWritten(settlement) <==> !MayHaveIt(s, id)
    ensures Inv(Settle(s, id, settlement), limits) && Follows(s, Settle(s, id, settlement))
  {
    hide Honest, Follows;
    SettleStaysHonest(s, id, settlement);
    FewerPending(s.pending, id);
  }

  lemma SettleStaysHonest(s: State, id: RequestId, settlement: Settlement)
    requires Honest(s) && id !in s.settled
    requires SaysNotWritten(settlement) <==> !MayHaveIt(s, id)
    ensures Honest(Settle(s, id, settlement)) && Follows(s, Settle(s, id, settlement))
  {
    var after := Settle(s, id, settlement);
    forall other | Issued(s, other) ensures Issued(after, other) {}
    forall other | other in after.settled ensures SaysNotWritten(after.settled[other]) <==> !MayHaveIt(after, other) {
      if other != id { assert other in s.settled; }
    }
  }

  lemma FewerPending(pending: map<RequestId, bool>, id: RequestId)
    ensures |pending - {id}| <= |pending|
    ensures id !in pending ==> pending - {id} == pending
  {
    assert (pending - {id}).Keys == pending.Keys - {id};
  }

  lemma RejectAllKeeps(s: State, limits: Limits, failure: Failure)
    requires Inv(s, limits)
    ensures Inv(RejectAll(s.(ended := true), failure), limits)
    ensures Follows(s, RejectAll(s.(ended := true), failure))
  {
    var after := RejectAll(s.(ended := true), failure);
    forall id | Issued(s, id) ensures Issued(after, id) {}
    forall id | id in after.settled ensures SaysNotWritten(after.settled[id]) <==> !MayHaveIt(after, id) {
      if id !in s.pending { assert id in s.settled; }
    }
  }

  lemma RequestKeeps(s: State, limits: Limits, id: RequestId, attempt: Attempt)
    requires Inv(s, limits) && Enabled(s, Request(id, attempt))
    ensures Inv(Step(s, limits, Request(id, attempt)), limits) && Follows(s, Step(s, limits, Request(id, attempt)))
  {
    var invalid := Invalid(s, limits, attempt);
    assert id !in s.reached;
    if invalid.Some? { SettleKeeps(s, limits, id, Failed(invalid.value, NotWritten)); }
    else if !attempt.encodes { SettleKeeps(s, limits, id, Failed(FrameInvalid, NotWritten)); }
    else if attempt.writeReturns { WriteKeeps(s, limits, id); }
    else { ThrowKeeps(s, limits, id); }
  }

  lemma WriteKeeps(s: State, limits: Limits, id: RequestId)
    requires Inv(s, limits) && !Issued(s, id) && !s.ended && |s.pending| < limits.maxPending
    ensures Inv(Written(s, id), limits) && Follows(s, Written(s, id))
  {
    hide Honest, Follows;
    WriteStaysHonest(s, id);
    assert Written(s, id).pending.Keys == s.pending.Keys + {id};
  }

  lemma WriteStaysHonest(s: State, id: RequestId)
    requires Honest(s) && !Issued(s, id)
    ensures Honest(Written(s, id)) && Follows(s, Written(s, id))
  {
    OthersUntouched(s, Written(s, id), id);
  }

  lemma ThrowKeeps(s: State, limits: Limits, id: RequestId)
    requires Inv(s, limits) && !Issued(s, id)
    ensures Inv(Thrown(s, id), limits) && Follows(s, Thrown(s, id))
  {
    hide Honest, Follows;
    ThrowStaysHonest(s, id);
    FewerPending(s.pending, id);
  }

  lemma ThrowStaysHonest(s: State, id: RequestId)
    requires Honest(s) && !Issued(s, id)
    ensures Honest(Thrown(s, id)) && Follows(s, Thrown(s, id))
  {
    OthersUntouched(s, Thrown(s, id), id);
  }

  lemma OthersUntouched(s: State, after: State, id: RequestId)
    requires after == Written(s, id) || after == Thrown(s, id)
    ensures forall other :: other != id ==> (MayHaveIt(after, other) <==> MayHaveIt(s, other))
    ensures forall other :: other != id ==> (Issued(after, other) <==> Issued(s, other))
  {
  }

  lemma FailureKeeps(s: State, limits: Limits, id: RequestId, failure: Failure)
    requires Inv(s, limits) && id in s.pending
    ensures var after := Settle(s, id, Failed(failure, Label(s.pending[id])));
            Inv(after, limits) && Follows(s, after)
  {
    SettleKeeps(s, limits, id, Failed(failure, Label(s.pending[id])));
  }

  lemma StepKeeps(s: State, limits: Limits, e: Event)
    requires Inv(s, limits) && Enabled(s, e)
    ensures Inv(Step(s, limits, e), limits) && Follows(s, Step(s, limits, e))
  {
    hide Inv, Follows;
    Unmoved(s);
    match e
    case Request(id, attempt) => RequestKeeps(s, limits, id, attempt);
    case Response(id) => if id in s.pending { ResolutionKeeps(s, limits, id); }
    case Expire(id) => if id in s.pending { FailureKeeps(s, limits, id, RequestTimeout); }
    case WriteError(id) => if id in s.pending { FailureKeeps(s, limits, id, WriteFailed); }
    case End(framing) => if !s.ended { RejectAllKeeps(s, limits, if framing then FrameInvalid else ConnectionClosed); }
    case Close => if !s.ended { RejectAllKeeps(s, limits, ConnectionClosed); }
  }

  lemma Unmoved(s: State)
    ensures Follows(s, s)
  {
  }

  lemma ResolutionKeeps(s: State, limits: Limits, id: RequestId)
    requires Inv(s, limits) && id in s.pending
    ensures Inv(Settle(s, id, Resolved), limits) && Follows(s, Settle(s, id, Resolved))
  {
    SettleKeeps(s, limits, id, Resolved);
  }

  lemma {:induction false} RunKeeps(states: seq<State>, events: seq<Event>, limits: Limits, i: nat)
    requires Run(states, events, limits) && i < |states|
    ensures Inv(states[i], limits)
  {
    if i > 0 {
      RunKeeps(states, events, limits, i - 1);
      assert Enabled(states[i - 1], events[i - 1]);
      StepKeeps(states[i - 1], limits, events[i - 1]);
    }
  }

  /** In every run the table is bounded and empty once ended, and an error says not-written exactly when the frame was
      never handed to the socket's write or that very call threw. */
  lemma TableIsHonest(states: seq<State>, events: seq<Event>, limits: Limits, i: nat, id: RequestId)
    requires Run(states, events, limits) && i < |states|
    ensures var s := states[i];
            && |s.pending| <= limits.maxPending
            && (s.ended ==> s.pending == map[])
            && !(id in s.pending && id in s.settled)
            && (id in s.settled ==> (SaysNotWritten(s.settled[id]) <==> id !in s.reached || id in s.threw))
            && (id in s.settled && s.settled[id].Resolved? ==> MayHaveIt(s, id))
  {
    RunKeeps(states, events, limits, i);
  }

  /** A request that was admitted and encoded, and whose write threw. */
  predicate ThrewInWrite(s: State, limits: Limits, e: Event, id: RequestId) {
    && e.Request? && e.id == id && Invalid(s, limits, e.attempt).None?
    && e.attempt.encodes && !e.attempt.writeReturns
  }

  /** Not-written is said of a frame that did reach the socket exactly when its own write threw. */
  lemma {:induction false} NotWrittenThoughReached(
    states: seq<State>, events: seq<Event>, limits: Limits, i: nat, id: RequestId)
    requires Run(states, events, limits) && i < |states|
    ensures (id in states[i].settled && SaysNotWritten(states[i].settled[id]) && id in states[i].reached)
            <==> exists k :: 0 <= k < i && ThrewInWrite(states[k], limits, events[k], id)
  {
    RunKeeps(states, events, limits, i);
    if i > 0 {
      RunKeeps(states, events, limits, i - 1);
      NotWrittenThoughReached(states, events, limits, i - 1, id);
      assert Enabled(states[i - 1], events[i - 1]);
      StepThrows(states[i - 1], limits, events[i - 1], id);
    }
  }

  lemma StepThrows(s: State, limits: Limits, e: Event, id: RequestId)
    ensures id in Step(s, limits, e).threw <==> id in s.threw || ThrewInWrite(s, limits, e, id)
  {
  }

  /** It does happen: the first request of a connection, within bounds, whose write throws. */
  lemma ThrowingWriteSaysNotWritten(id: RequestId)
    ensures var limits, e := Limits(1, 1, 10), Request(id, Attempt(true, 5, true, false));
            && Enabled(INITIAL, e)
            && id in Step(INITIAL, limits, e).reached
            && Step(INITIAL, limits, e).settled == map[id := Failed(WriteFailed, NotWritten)]
  {
  }

  /** Each request settles exactly once: once issued it is open or settled, and a settlement never changes. */
  lemma {:induction false} SettledExactlyOnce(
    states: seq<State>, events: seq<Event>, limits: Limits, i: nat, j: nat, id: RequestId)
    requires Run(states, events, limits) && i <= j < |states| && Issued(states[i], id)
    ensures Issued(states[j], id)
    ensures id in states[i].settled ==> id in states[j].settled && states[j].settled[id] == states[i].settled[id]
    ensures id in states[i].settled ==> id !in states[j].pending
    ensures states[j].ended ==> id in states[j].settled
  {
    RunKeeps(states, events, limits, j);
    if i < j {
      SettledExactlyOnce(states, events, limits, i, j - 1, id);
      RunKeeps(states, events, limits, j - 1);
      assert Enabled(states[j - 1], events[j - 1]);
      StepKeeps(states[j - 1], limits, events[j - 1]);
    }
  }

  /** What a validation's answer decides for the request it was asked for. */
  ghost predicate Admission(s: State, limits: Limits, id: RequestId, attempt: Attempt, failure: Option<Failure>) {
    var after := Step(s, limits, Request(id, attempt));
    && (failure.Some? ==>
          && after.pending == s.pending && after.reached == s.reached
          && id in after.settled && after.settled[id] == Failed(failure.value, NotWritten))
    && (failure.None? ==>
          && (attempt.encodes && id !in s.reached ==> id in after.reached)
          && (id in after.pending <==> attempt.encodes && attempt.writeReturns)
          && (after.ended == s.ended == false) && |after.pending| <= limits.maxPending)
  }

  /** The events that may settle a request this way. */
  predicate CausedBy(s: State, e: Event, id: RequestId, settlement: Settlement) {
    match settlement
    case Resolved => e == Response(id)
    case Failed(failure, _) =>
      match failure
      case RequestTimeout => e == Expire(id)
      case WriteFailed => e == WriteError(id) || (e.Request? && e.id == id && !e.attempt.writeReturns)
      case FrameInvalid => e == End(true) || (e.Request? && e.id == id && !e.attempt.encodes)
      case ConnectionClosed =>
        e == End(false) || e == Close || (e.Request? && e.id == id && (s.ended || !e.attempt.socketUp))
      case InvalidTimeout => e.Request? && e.id == id
      case PendingLimit => e.Request? && e.id == id
  }

  /** In every run a request is settled by an event that its settlement names, and by no other request's. */
  lemma SettlementHasItsCause(states: seq<State>, events: seq<Event>, limits: Limits, i: nat, id: RequestId)
    requires Run(states, events, limits) && i < |events|
    requires id !in states[i].settled && id in states[i + 1].settled
    ensures CausedBy(states[i], events[i], id, states[i + 1].settled[id])
  {
    hide Step, CausedBy, Enabled;
    assert states[i + 1] == Step(states[i], limits, events[i]);
    NewlySettled(states[i], limits, events[i], id);
  }

  lemma NewlySettled(s: State, limits: Limits, e: Event, id: RequestId)
    requires id !in s.settled && id in Step(s, limits, e).settled
    ensures CausedBy(s, e, id, Step(s, limits, e).settled[id])
  {
    hide Settle, RejectAll, Written, Thrown;
    match e
    case Request(other, attempt) =>
      var invalid := Invalid(s, limits, attempt);
      if invalid.Some? { SettlesOne(s, other, Failed(invalid.value, NotWritten), id); }
      else if !attempt.encodes { SettlesOne(s, other, Failed(FrameInvalid, NotWritten), id); }
      else { HandingOverSettles(s, other, id); }
    case Response(other) => if other in s.pending { SettlesOne(s, other, Resolved, id); }
    case Expire(other) =>
      if other in s.pending { SettlesOne(s, other, Failed(RequestTimeout, Label(s.pending[other])), id); }
    case WriteError(other) =>
      if other in s.pending { SettlesOne(s, other, Failed(WriteFailed, Label(s.pending[other])), id); }
    case End(framing) =>
      if !s.ended { SettlesAll(s.(ended := true), if framing then FrameInvalid else ConnectionClosed, id); }
    case Close => if !s.ended { SettlesAll(s.(ended := true), ConnectionClosed, id); }
  }

  lemma SettlesOne(s: State, other: RequestId, settlement: Settlement, id: RequestId)
    ensures id !in s.settled && id in Settle(s, other, settlement).settled ==>
              id == other && Settle(s, other, settlement).settled[id] == settlement
  {
  }

  lemma HandingOverSettles(s: State, other: RequestId, id: RequestId)
    ensures Written(s, other).settled == s.settled
    ensures id !in s.settled && id in Thrown(s, other).settled ==>
              id == other && Thrown(s, other).settled[id] == Failed(WriteFailed, NotWritten)
  {
  }

  lemma SettlesAll(s: State, failure: Failure, id: RequestId)
    ensures id !in s.settled && id in RejectAll(s, failure).settled ==>
              RejectAll(s, failure).settled[id].Failed? && RejectAll(s, failure).settled[id].failure == failure
  {
  }

  /** How this event settles an open request, if it does. Its frame was handed over, so any failure may have written. */
  function SettlementBy(e: Event, id: RequestId): Option<Settlement> {
    match e
    case Response(other) => if other == id then Some(Resolved) else None
    case Expire(other) => if other == id then Some(Failed(RequestTimeout, MaybeWritten)) else None
    case WriteError(other) => if other == id then Some(Failed(WriteFailed, MaybeWritten)) else None
    case End(framing) => Some(Failed(if framing then FrameInvalid else ConnectionClosed, MaybeWritten))
    case Close => Some(Failed(ConnectionClosed, MaybeWritten))
    case Request(_, _) => None
  }

  /** In every run an open request is settled by its response, its timer, its write error or the end of the connection,
      each with its own answer, and by nothing else. */
  lemma OpenRequestIsSettledExactlyBy(
    states: seq<State>, events: seq<Event>, limits: Limits, i: nat, id: RequestId)
    requires Run(states, events, limits) && i < |events| && id in states[i].pending
    ensures var after, settlement := states[i + 1], SettlementBy(events[i], id);
            && (settlement.Some? ==>
                  id !in after.pending && id in after.settled && after.settled[id] == settlement.value)
            && (settlement.None? ==> id in after.pending && id !in after.settled)
  {
    RunKeeps(states, events, limits, i);
    assert Enabled(states[i], events[i]) && states[i + 1] == Step(states[i], limits, events[i]);
    assert !states[i].ended && states[i].pending[id];
  }

  /** In every run a request is admitted exactly while the connection lasts, its timeout is within bounds and the
      table has room; an admitted one stays open exactly if it is encoded and its write returns, and every other one
      is settled at once as not-written, with the first reason that applies. */
  lemma RequestIsAdmittedExactlyWhen(
    states: seq<State>, events: seq<Event>, limits: Limits, i: nat, id: RequestId, attempt: Attempt)
    requires Run(states, events, limits) && i < |events| && events[i] == Request(id, attempt)
    ensures var s, after := states[i], states[i + 1];
            && (id in after.pending
                <==> && !s.ended && attempt.socketUp && limits.minTimeout <= attempt.timeoutMs <= limits.maxTimeout
                     && |s.pending| < limits.maxPending && attempt.encodes && attempt.writeReturns)
            && (id !in after.pending ==>
                  && id in after.settled && SaysNotWritten(after.settled[id])
                  && after.settled[id].failure
                     == if s.ended || !attempt.socketUp then ConnectionClosed
                        else if !(limits.minTimeout <= attempt.timeoutMs <= limits.maxTimeout) then InvalidTimeout
                        else if |s.pending| >= limits.maxPending then PendingLimit
                        else if !attempt.encodes then FrameInvalid
                        else WriteFailed)
  {
    RunKeeps(states, events, limits, i);
    assert Enabled(states[i], events[i]) && states[i + 1] == Step(states[i], limits, events[i]);
  }

  lemma Unregistered(pending: map<RequestId, bool>, id: RequestId)
    requires id !in pending
    ensures pending - {id} == pending && pending[id := false] - {id} == pending
    ensures pending[id := false][id := true] == pending[id := true]
  {
  }

  // ---------- the table as the connection keeps it ----------

  class RawConnection {
    var pending: map<RequestId, bool>
    var ended: bool
    const limits: Limits
    ghost var settled: map<RequestId, Settlement>
    ghost var reached: set<RequestId>
    ghost var threw: set<RequestId>

    ghost function View(): State
      reads this
    {
      State(pending, ended, settled, reached, threw)
    }

    constructor (limits: Limits)
      ensures View() == INITIAL && this.limits == limits
    {
      pending, ended := map[], false;
      settled, reached, threw := map[], {}, {};
      this.limits := limits;
    }

    /** A refusal is final before anything happens; without one, encoding alone decides whether the frame is written. */
    method ValidateRequest(attempt: Attempt) returns (failure: Option<Failure>)
      ensures failure == Invalid(View(), limits, attempt)
      ensures forall id :: Enabled(View(), Event.Request(id, attempt)) ==>
                    Admission(View(), limits, id, attempt, failure)
    {
      forall id | Enabled(View(), Event.Request(id, attempt))
        ensures Admission(View(), limits, id, attempt, Invalid(View(), limits, attempt))
      {
        Unregistered(pending, id);
      }
      if ended || !attempt.socketUp { return Some(ConnectionClosed); }
      if attempt.timeoutMs < limits.minTimeout || attempt.timeoutMs > limits.maxTimeout { return Some(InvalidTimeout); }
      if |pending| >= limits.maxPending { return Some(PendingLimit); }
      failure := None;
    }

    /** Registered first, then encoded, then written: crossing the write is the submission barrier. */
    method Request(id: RequestId, attempt: Attempt)
      requires Enabled(View(), Event.Request(id, attempt))
      modifies this
      ensures View() == Step(old(View()), limits, Event.Request(id, attempt))
    {
      Unregistered(pending, id);
      var invalid := ValidateRequest(attempt);
      if invalid.Some? {
        settled := settled[id := Failed(invalid.value, NotWritten)];
        return;
      }
      pending := pending[id := false];
      if !attempt.encodes {
        pending := pending - {id};
        settled := settled[id := Failed(FrameInvalid, NotWritten)];
        return;
      }
      reached := reached + {id};
      if !attempt.writeReturns {
        threw := threw + {id};
        settled := settled[id := Failed(WriteFailed, Label(pending[id]))];
        pending := pending - {id};
        return;
      }
      pending := pending[id := true];
    }

    /** A response resolves its open request; one that belongs to none changes nothing. */
    method Respond(id: RequestId) returns (orphan: bool)
      modifies this
      ensures View() == Step(old(View()), limits, Response(id)) && orphan == (id !in old(pending))
      ensures !orphan ==> id !in pending && id in settled && settled[id] == Resolved
      ensures orphan ==> View() == old(View())
    {
      orphan := id !in pending;
      if orphan { return; }
      pending := pending - {id};
      settled := settled[id := Resolved];
    }

    method Expire(id: RequestId)
      modifies this
      ensures View() == Step(old(View()), limits, Event.Expire(id))
      ensures id in old(pending) ==>
                && id !in pending && id in settled
                && settled[id] == Failed(RequestTimeout, if old(pending)[id] then MaybeWritten else NotWritten)
    {
      if id !in pending { return; }
      settled := settled[id := Failed(RequestTimeout, Label(pending[id]))];
      pending := pending - {id};
    }

    method FailWrite(id: RequestId)
      modifies this
      ensures View() == Step(old(View()), limits, WriteError(id))
      ensures id in old(pending) ==>
                && id !in pending && id in settled
                && settled[id] == Failed(WriteFailed, if old(pending)[id] then MaybeWritten else NotWritten)
    {
      if id !in pending { return; }
      settled := settled[id := Failed(WriteFailed, Label(pending[id]))];
      pending := pending - {id};
    }

    method RejectEverything(failure: Failure)
      modifies this`pending, this`settled
      ensures View() == RejectAll(old(View()), failure)
    {
      var left := pending.Keys;
      while left != {}
        invariant left <= pending.Keys && pending == old(pending)
        invariant settled.Keys == old(settled).Keys + (pending.Keys - left)
        invariant forall id :: id in settled && id in pending && id !in left ==>
                    settled[id] == Failed(failure, Label(pending[id]))
        invariant forall id :: id in old(settled) && (id !in pending || id in left) ==> settled[id] == old(settled)[id]
        decreases left
      {
        var id :| id in left;
        settled := settled[id := Failed(failure, Label(pending[id]))];
        left := left - {id};
      }
      assert settled == old(settled) + map id | id in pending :: Failed(failure, Label(pending[id]));
      pending := map[];
    }

    method Finish(framing: bool)
      modifies this
      ensures View() == Step(old(View()), limits, End(framing))
    {
      if ended { return; }
      ended := true;
      RejectEverything(if framing then FrameInvalid else ConnectionClosed);
    }

    method Shut()
      modifies this
      ensures View() == Step(old(View()), limits, Close)
    {
      if ended { return; }
      ended := true;
      RejectEverything(ConnectionClosed);
    }
  }
}
