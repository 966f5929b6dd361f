/** The webhook token table, and the ledger that would remember every token ever issued. */
module Registry {
  import opened Types

  datatype Mode = Queue | Steer

  /** One row. The stored hash is injective, so the token itself stands for it. */
  datatype Webhook = Webhook(
    token: string, thread: string, mode: Mode, prepend: string,
    expires: Option<int>, remaining: Option<int>, created: int)

  type Rows = map<string, Webhook>

  datatype Request = Request(
    id: string, thread: string, mode: Mode, prepend: string, prependBytes: nat,
    expires: Option<int>, limit: Option<int>)

  datatype Refusal = InvalidId | ThreadRequired | PrependTooLong | AlreadyExpired | NoDeliveries | OtherThread

  /** A new token is drawn outside the model: `token` is the one `create` will use. */
  datatype Call =
    | Create(request: Request, token: string, now: int)
    | Inspect(token: string, now: int)
    | Claim(token: string, now: int)
    | List(now: int)
    | Revoke(id: string)
    | RevokeThread(thread: string)
    | RevokeAll
    | DeleteExpired(now: int)

  datatype Reply =
    | Refused(reason: Refusal)
    | Created(hook: Webhook)
    | Found(id: string, hook: Webhook)
    | NotFound
    | Listed(rows: Rows)
    | Removed(count: nat)

  const MAX_PREPEND_BYTES := 4 * 1024
  const TOKEN_LENGTH := 43

  predicate Alphanumeric(c: char) {
    'A' <= c <= 'Z' || 'a' <= c <= 'z' || '0' <= c <= '9'
  }

  predicate HookIdShape(id: string) {
    && 1 <= |id| <= 64
    && Alphanumeric(id[0])
    && forall i :: 1 <= i < |id| ==> Alphanumeric(id[i]) || id[i] in "._-"
  }

  predicate TokenShape(token: string) {
    |token| == TOKEN_LENGTH && forall i :: 0 <= i < |token| ==> Alphanumeric(token[i]) || token[i] in "_-"
  }

  predicate Expired(expires: Option<int>, now: int) {
    expires.Some? && expires.value <= now
  }

  function Invalid(request: Request, now: int): Option<Refusal> {
    if !HookIdShape(request.id) then Some(InvalidId)
    else if request.thread == "" then Some(ThreadRequired)
    else if request.prependBytes > MAX_PREPEND_BYTES then Some(PrependTooLong)
    else if Expired(request.expires, now) then Some(AlreadyExpired)
    else if request.limit.Some? && request.limit.value < 1 then Some(NoDeliveries)
    else None
  }

  function NewRow(request: Request, token: string, now: int): Webhook {
    Webhook(token, request.thread, request.mode, request.prepend, request.expires, request.limit, now)
  }

  function ExpiredIds(rows: Rows, now: int): set<string> {
    set id | id in rows && Expired(rows[id].expires, now)
  }

  function ThreadIds(rows: Rows, thread: string): set<string> {
    set id | id in rows && rows[id].thread == thread
  }

  /** The row a token selects. */
  ghost function Holder(rows: Rows, token: string): Option<string> {
    if exists id :: id in rows && rows[id].token == token
    then var id :| id in rows && rows[id].token == token; Some(id)
    else None
  }

  function Spent(rows: Rows, id: string): Rows
    requires id in rows
  {
    if rows[id].remaining == Some(1) then rows - {id}
    else if rows[id].remaining.Some? then rows[id := rows[id].(remaining := Some(rows[id].remaining.value - 1))]
    else rows
  }

  /** The table as every call leaves it, and what the caller is told. */
  ghost function Serve(rows: Rows, call: Call): (Rows, Reply) {
    match call
    case Create(request, token, now) =>
      var invalid := Invalid(request, now);
      if invalid.Some? then (rows, Refused(invalid.value))
      else if request.id in rows && rows[request.id].thread != request.thread then (rows, Refused(OtherThread))
      else (rows[request.id := NewRow(request, token, now)], Created(NewRow(request, token, now)))
    case Inspect(token, now) => LookUp(rows, token, now, false)
    case Claim(token, now) => LookUp(rows, token, now, true)
    case List(now) => (rows - ExpiredIds(rows, now), Listed(rows - ExpiredIds(rows, now)))
    case Revoke(id) => (rows - {id}, Removed(if id in rows then 1 else 0))
    case RevokeThread(thread) => (rows - ThreadIds(rows, thread), Removed(|ThreadIds(rows, thread)|))
    case RevokeAll => (map[], Removed(|rows|))
    case DeleteExpired(now) => (rows - ExpiredIds(rows, now), Removed(|ExpiredIds(rows, now)|))
  }

  ghost function LookUp(rows: Rows, token: string, now: int, spend: bool): (Rows, Reply) {
    var holder := Holder(rows, token);
    if !TokenShape(token) || holder.None? then (rows, NotFound)
    else if Expired(rows[holder.value].expires, now) then (rows - {holder.value}, NotFound)
    else (if spend then Spent(rows, holder.value) else rows, Found(holder.value, rows[holder.value]))
  }

  // ---------- the reference: nothing is ever forgotten ----------

  /** A token as issued, how often it was claimed, and whether a revocation or a newer token withdrew it. */
  datatype Issue = Issue(id: string, hook: Webhook, claims: nat, withdrawn: bool)

  type Ledger = map<string, Issue>

  predicate Withdraws(call: Call, reply: Reply, issue: Issue) {
    match call
    case Create(request, _, _) => reply.Created? && issue.id == request.id
    case Revoke(id) => issue.id == id
    case RevokeThread(thread) => issue.hook.thread == thread
    case RevokeAll => true
    case _ => false
  }

  predicate Grants(call: Call, reply: Reply, token: string) {
    call.Claim? && reply.Found? && call.token == token
  }

  function Updated(issue: Issue, call: Call, reply: Reply, token: string): Issue {
    issue.(claims := issue.claims + (if Grants(call, reply, token) then 1 else 0),
           withdrawn := issue.withdrawn || Withdraws(call, reply, issue))
  }

  /** The ledger reads calls and replies, never the table. */
  function Remember(ledger: Ledger, call: Call, reply: Reply): Ledger {
    var updated := map token | token in ledger :: Updated(ledger[token], call, reply, token);
    if call.Create? && reply.Created?
    then updated[call.token := Issue(call.request.id, NewRow(call.request, call.token, call.now), 0, false)]
    else updated
  }

  predicate CanStillClaim(issue: Issue) {
    !issue.withdrawn && (issue.hook.remaining.Some? ==> issue.claims < issue.hook.remaining.value)
  }

  predicate Usable(issue: Issue, now: Option<int>) {
    CanStillClaim(issue) && (now.Some? ==> !Expired(issue.hook.expires, now.value))
  }

  /** The row an issued token should have by now. */
  function Current(issue: Issue): Webhook {
    if issue.hook.remaining.Some?
    then issue.hook.(remaining := Some(issue.hook.remaining.value - issue.claims))
    else issue.hook
  }

  /** `latest` is the latest time at which the table was searched for expired rows. */
  datatype State = State(rows: Rows, ledger: Ledger, latest: Option<int>)

  const INITIAL := State(map[], map[], None)

  function Looked(latest: Option<int>, call: Call): Option<int> {
    if !(call.Inspect? || call.Claim? || call.List? || call.DeleteExpired?) then latest
    else if latest.Some? && latest.value > call.now then latest
    else Some(call.now)
  }

  ghost function Step(s: State, call: Call): State {
    var (rows, reply) := Serve(s.rows, call);
    State(rows, Remember(s.ledger, call, reply), Looked(s.latest, call))
  }

  /** A drawn token has the token shape and was never drawn before. */
  predicate Enabled(s: State, call: Call) {
    call.Create? ==> TokenShape(call.token) && call.token !in s.ledger
  }

  ghost predicate Run(states: seq<State>, calls: seq<Call>) {
    && |states| == |calls| + 1
    && states[0] == INITIAL
    && forall i :: 0 <= i < |calls| ==> Enabled(states[i], calls[i]) && states[i + 1] == Step(states[i], calls[i])
  }

  ghost predicate RowsAreIssued(rows: Rows, ledger: Ledger) {
    forall id :: id in rows ==>
      && rows[id].token in ledger
      && ledger[rows[id].token].id == id
      && CanStillClaim(ledger[rows[id].token])
      && rows[id] == Current(ledger[rows[id].token])
  }

  predicate HeldBy(rows: Rows, issue: Issue) {
    issue.id in rows && rows[issue.id].token == issue.hook.token
  }

  ghost predicate UsableHaveRows(rows: Rows, ledger: Ledger, latest: Option<int>) {
    forall token :: token in ledger && Usable(ledger[token], latest) ==> HeldBy(rows, ledger[token])
  }

  predicate Sound(token: string, issue: Issue) {
    && TokenShape(token)
    && issue.hook.token == token
    && (issue.hook.remaining.Some? ==> 1 <= issue.hook.remaining.value && issue.claims <= issue.hook.remaining.value)
  }

  ghost predicate Inv(s: State) {
    && (forall token :: token in s.ledger ==> Sound(token, s.ledger[token]))
    && RowsAreIssued(s.rows, s.ledger)
    && UsableHaveRows(s.rows, s.ledger, s.latest)
  }

  /** A token selects the one row the ledger knows for it, or none. */
  lemma HolderIsIssued(s: State, token: string)
    requires Inv(s)
    ensures Holder(s.rows, token)
            == if token in s.ledger && HeldBy(s.rows, s.ledger[token]) then Some(s.ledger[token].id) else None
  {
  }

  /** Rows only go, and only those whose token stopped being usable. */
  lemma RemovalKeeps(s: State, after: State, gone: set<string>)
    requires Inv(s) && after.rows == s.rows - gone && after.ledger.Keys == s.ledger.Keys
    requires forall t :: t in s.ledger ==>
               && after.ledger[t].(withdrawn := s.ledger[t].withdrawn) == s.ledger[t]
               && (s.ledger[t].withdrawn ==> after.ledger[t].withdrawn)
    requires forall t :: t in s.ledger && after.ledger[t].withdrawn && !s.ledger[t].withdrawn ==>
               HeldBy(s.rows, s.ledger[t]) ==> s.ledger[t].id in gone
    requires forall t :: t in s.ledger && Usable(after.ledger[t], after.latest) ==>
               Usable(s.ledger[t], s.latest) && s.ledger[t].id !in gone
    ensures Inv(after)
  {
    forall id | id in after.rows ensures CanStillClaim(after.ledger[after.rows[id].token]) {
      assert id in s.rows && id !in gone && HeldBy(s.rows, s.ledger[s.rows[id].token]);
    }
  }

  lemma UnchangedLedger(ledger: Ledger, call: Call, reply: Reply)
    requires !call.Create? || !reply.Created?
    requires forall t :: t in ledger ==> !Grants(call, reply, t) && !Withdraws(call, reply, ledger[t])
    ensures Remember(ledger, call, reply) == ledger
  {
  }

  lemma LaterIsStricter(issue: Issue, latest: Option<int>, call: Call)
    requires Usable(issue, Looked(latest, call))
    ensures Usable(issue, latest)
  {
  }

  lemma SweepKeeps(s: State, call: Call)
    requires Inv(s) && (call.List? || call.DeleteExpired?)
    ensures Inv(Step(s, call))
  {
    var after := Step(s, call);
    UnchangedLedger(s.ledger, call, Serve(s.rows, call).1);
    forall t | t in s.ledger && Usable(s.ledger[t], after.latest)
      ensures Usable(s.ledger[t], s.latest) && s.ledger[t].id !in ExpiredIds(s.rows, call.now)
    {
      LaterIsStricter(s.ledger[t], s.latest, call);
    }
    RemovalKeeps(s, after, ExpiredIds(s.rows, call.now));
  }

  lemma RevocationKeeps(s: State, call: Call, gone: set<string>)
    requires Inv(s) && (call.Revoke? || call.RevokeThread? || call.RevokeAll?)
    requires gone == if call.Revoke? then {call.id}
                     else if call.RevokeThread? then ThreadIds(s.rows, call.thread) else s.rows.Keys
    ensures Inv(Step(s, call))
  {
    var after := Step(s, call);
    assert after.rows == s.rows - gone;
    forall t | t in s.ledger && Usable(after.ledger[t], after.latest)
      ensures Usable(s.ledger[t], s.latest) && s.ledger[t].id !in gone
    {
      assert HeldBy(s.rows, s.ledger[t]);
    }
    RemovalKeeps(s, after, gone);
  }

  lemma CreationKeeps(s: State, call: Call)
    requires Inv(s) && Enabled(s, call) && call.Create?
    ensures Inv(Step(s, call))
  {
    var after, reply := Step(s, call), Serve(s.rows, call).1;
    if !reply.Created? {
      UnchangedLedger(s.ledger, call, reply);
    } else {
      NewRowIsIssued(s, call, after);
      NewIssueHasRow(s, call, after);
    }
  }

  lemma NewIssueHasRow(s: State, call: Call, after: State)
    requires Inv(s) && Enabled(s, call) && call.Create? && after == Step(s, call)
    requires Serve(s.rows, call).1.Created?
    ensures UsableHaveRows(after.rows, after.ledger, after.latest)
    ensures forall token :: token in after.ledger ==> Sound(token, after.ledger[token])
  {
    forall t | t in after.ledger && Usable(after.ledger[t], after.latest) ensures HeldBy(after.rows, after.ledger[t]) {
      if t != call.token { assert Usable(s.ledger[t], s.latest) && s.ledger[t].id != call.request.id; }
    }
  }

  lemma NewRowIsIssued(s: State, call: Call, after: State)
    requires Inv(s) && Enabled(s, call) && call.Create? && after == Step(s, call)
    requires Serve(s.rows, call).1.Created?
    ensures RowsAreIssued(after.rows, after.ledger)
  {
    forall id | id in after.rows && id != call.request.id
      ensures after.rows[id].token in s.ledger && after.ledger[after.rows[id].token] == s.ledger[after.rows[id].token]
    {
      assert after.rows[id] == s.rows[id];
    }
  }

  /** Looking a token up keeps the table and the ledger in step, whether or not it spends a delivery. */
  lemma LookUpKeeps(s: State, call: Call)
    requires Inv(s) && (call.Inspect? || call.Claim?)
    ensures Inv(Step(s, call))
  {
    var after, reply := Step(s, call), Serve(s.rows, call).1;
    HolderIsIssued(s, call.token);
    forall t | t in s.ledger && Usable(s.ledger[t], after.latest) ensures Usable(s.ledger[t], s.latest) {
      LaterIsStricter(s.ledger[t], s.latest, call);
    }
    if call.Claim? && reply.Found? {
      SpendRemembered(s, call);
      SpendKeeps(s, call.token, after);
    } else {
      UnchangedLedger(s.ledger, call, reply);
      RemovalKeeps(s, after, s.rows.Keys - after.rows.Keys);
    }
  }

  function OneMoreClaim(issue: Issue): Issue {
    issue.(claims := issue.claims + 1)
  }

  lemma SpendRemembered(s: State, call: Call)
    requires call.Claim? && call.token in s.ledger && Serve(s.rows, call).1.Found?
    ensures Step(s, call).ledger == s.ledger[call.token := OneMoreClaim(s.ledger[call.token])]
  {
  }

  lemma SpendKeeps(s: State, token: string, after: State)
    requires Inv(s) && token in s.ledger && HeldBy(s.rows, s.ledger[token])
    requires after.rows == Spent(s.rows, s.ledger[token].id)
    requires after.ledger == s.ledger[token := OneMoreClaim(s.ledger[token])]
    requires forall t :: t in s.ledger && Usable(s.ledger[t], after.latest) ==> Usable(s.ledger[t], s.latest)
    ensures Inv(after)
  {
    var issue := s.ledger[token];
    assert s.rows[issue.id] == Current(issue) && CanStillClaim(issue);
    assert CanStillClaim(OneMoreClaim(issue)) <==> issue.id in after.rows;
    assert issue.id in after.rows ==> after.rows[issue.id] == Current(OneMoreClaim(issue));
    forall t | t in after.ledger && Usable(after.ledger[t], after.latest) ensures HeldBy(after.rows, after.ledger[t]) {
      if t != token {
        assert Usable(s.ledger[t], s.latest) && HeldBy(s.rows, s.ledger[t]);
        assert s.ledger[t].id != issue.id;
      }
    }
  }

  lemma StepKeeps(s: State, call: Call)
    requires Inv(s) && Enabled(s, call)
    ensures Inv(Step(s, call))
  {
    match call
    case Create(_, _, _) => CreationKeeps(s, call);
    case Inspect(_, _) => LookUpKeeps(s, call);
    case Claim(_, _) => LookUpKeeps(s, call);
    case List(_) => SweepKeeps(s, call);
    case DeleteExpired(_) => SweepKeeps(s, call);
    case Revoke(id) => RevocationKeeps(s, call, {id});
    case RevokeThread(thread) => RevocationKeeps(s, call, ThreadIds(s.rows, thread));
    case RevokeAll => RevocationKeeps(s, call, s.rows.Keys);
  }

  /** A request that may be issued at this time. */
  predicate WellFormed(request: Request, now: int) {
    && 1 <= |request.id| <= 64
    && Alphanumeric(request.id[0]) && (forall i :: 0 < i < |request.id| ==>
          Alphanumeric(request.id[i]) || request.id[i] == '.' || request.id[i] == '_' || request.id[i] == '-')
    && request.thread != ""
    && request.prependBytes <= 4096
    && (request.expires.Some? ==> request.expires.value > now)
    && (request.limit.Some? ==> request.limit.value >= 1)
  }

  /** Issuing succeeds exactly on a well-formed request whose id no other task has; then the row is there as asked for,
      and otherwise nothing changes. */
  lemma IssuesExactly(rows: Rows, request: Request, token: string, now: int)
    ensures var (after, reply) := Serve(rows, Create(request, token, now));
            var free := request.id !in rows || rows[request.id].thread == request.thread;
            && (reply.Created? <==> WellFormed(request, now) && free)
            && (reply.Created? ==> after == rows[request.id := reply.hook]
                                   && reply.hook == Webhook(token, request.thread, request.mode, request.prepend,
                                                            request.expires, request.limit, now))
            && (!reply.Created? ==> after == rows && reply.Refused?
                                    && (reply.reason == OtherThread <==> WellFormed(request, now) && !free))
  {
    ShapeMeans(request.id);
  }

  lemma ShapeMeans(id: string)
    ensures HookIdShape(id)
            <==> && 1 <= |id| <= 64
                 && Alphanumeric(id[0])
                 && (forall i :: 0 < i < |id| ==> Alphanumeric(id[i]) || id[i] == '.' || id[i] == '_' || id[i] == '-')
  {
    assert "._-" == ['.', '_', '-'];
    forall c: char ensures c in "._-" <==> c == '.' || c == '_' || c == '-' {}
  }

  /** The call asks for this row to be removed. */
  predicate Removes(call: Call, id: string, hook: Webhook) {
    match call
    case Revoke(revoked) => id == revoked
    case RevokeThread(thread) => hook.thread == thread
    case RevokeAll => true
    case DeleteExpired(now) => hook.expires.Some? && hook.expires.value <= now
    case _ => false
  }

  ghost function Asked(rows: Rows, call: Call): set<string> {
    set id | id in rows && Removes(call, id, rows[id])
  }

  /** A removal takes the rows it was asked for and no others, and says how many. */
  lemma RemovalsAreCounted(rows: Rows, call: Call)
    requires call.Revoke? || call.RevokeThread? || call.RevokeAll? || call.DeleteExpired?
    ensures var (after, reply) := Serve(rows, call);
            && reply.Removed? && |after| + reply.count == |rows|
            && (forall id :: id in after <==> id in rows && !Removes(call, id, rows[id]))
            && (forall id :: id in after ==> after[id] == rows[id])
  {
    ServedRemoval(rows, call);
    assert (rows - Asked(rows, call)).Keys == rows.Keys - Asked(rows, call);
    hide Serve, Removes;
  }

  lemma ServedRemoval(rows: Rows, call: Call)
    requires call.Revoke? || call.RevokeThread? || call.RevokeAll? || call.DeleteExpired?
    ensures Serve(rows, call) == (rows - Asked(rows, call), Removed(|Asked(rows, call)|))
  {
    hide LookUp, Invalid, NewRow, Holder, Spent;
    match call
    case Revoke(id) =>
      assert Asked(rows, call) == if id in rows then {id} else {};
      assert rows - {id} == rows - Asked(rows, call);
    case RevokeThread(thread) => assert Asked(rows, call) == ThreadIds(rows, thread);
    case RevokeAll =>
      assert Asked(rows, call) == rows.Keys;
      assert rows - rows.Keys == map[];
    case DeleteExpired(now) => assert Asked(rows, call) == ExpiredIds(rows, now);
    case _ =>
  }

  // ---------- over whole runs ----------

  lemma {:induction false} EveryReachableTableIsSound(states: seq<State>, calls: seq<Call>, n: nat)
    requires Run(states, calls) && n <= |calls|
    ensures Inv(states[n])
  {
    if n > 0 {
      EveryReachableTableIsSound(states, calls, n - 1);
      StepKeeps(states[n - 1], calls[n - 1]);
    }
  }

  /** What the ledger alone says a token is worth at this time. */
  function LedgerAnswer(ledger: Ledger, token: string, now: int): Reply {
    if token in ledger && Usable(ledger[token], Some(now))
    then Found(ledger[token].id, Current(ledger[token]))
    else NotFound
  }

  ghost predicate NotBefore(latest: Option<int>, now: int) {
    latest.Some? ==> latest.value <= now
  }

  /** A token is only ever found as the ledger has it, and at a time no earlier than every search before, exactly
      then. */
  lemma TableAnswersAsLedger(states: seq<State>, calls: seq<Call>, n: nat, token: string, now: int, spend: bool)
    requires Run(states, calls) && n <= |calls|
    ensures var reply := LookUp(states[n].rows, token, now, spend).1;
            && (reply.Found? ==> reply == LedgerAnswer(states[n].ledger, token, now))
            && (NotBefore(states[n].latest, now) ==> reply == LedgerAnswer(states[n].ledger, token, now))
  {
    EveryReachableTableIsSound(states, calls, n);
    var s := states[n];
    HolderIsIssued(s, token);
    if token in s.ledger && Usable(s.ledger[token], Some(now)) && NotBefore(s.latest, now) {
      assert Usable(s.ledger[token], s.latest);
    }
  }

  ghost predicate AnswersAsLedger(s: State, token: string, now: int, spend: bool) {
    LookUp(s.rows, token, now, spend).1 == LedgerAnswer(s.ledger, token, now)
  }

  /** In every run whose searches so far were no later than this, every lookup at `now` is answered as by the ledger. */
  ghost predicate AlwaysAnswers(latest: int, now: int) {
    forall states: seq<State>, calls: seq<Call>, n: nat, token: string, spend: bool ::
      Run(states, calls) && n <= |calls| && NotBefore(states[n].latest, latest)
      ==> AnswersAsLedger(states[n], token, now, spend)
  }

  /** The clock may go back to a time exactly if that is no earlier than the latest search may have been. */
  lemma ClockMayGoBackExactlyTo(latest: int, now: int)
    ensures AlwaysAnswers(latest, now) <==> latest <= now
  {
    hide LookUp, LedgerAnswer, Step, Enabled;
    if latest <= now {
      forall states: seq<State>, calls: seq<Call>, n: nat, token: string, spend: bool |
        Run(states, calls) && n <= |calls| && NotBefore(states[n].latest, latest)
        ensures AnswersAsLedger(states[n], token, now, spend)
      {
        TableAnswersAsLedger(states, calls, n, token, now, spend);
      }
    } else {
      var states, calls, token := SweptTooEarly(latest, now);
      assert !AnswersAsLedger(states[2], token, now, false);
    }
  }

  /** A sweep at the time a token expires, and then a lookup before that time: the row is gone, the token still good. */
  lemma SweptTooEarly(latest: int, now: int) returns (states: seq<State>, calls: seq<Call>, token: string)
    requires now < latest
    ensures Run(states, calls) && |calls| == 2 && NotBefore(states[2].latest, latest)
    ensures token in states[2].ledger && Usable(states[2].ledger[token], Some(now))
    ensures forall spend :: LookUp(states[2].rows, token, now, spend).1 == NotFound
    ensures !AnswersAsLedger(states[2], token, now, false)
  {
    token := seq(TOKEN_LENGTH, _ => 'a');
    var request := Request("a", "t", Queue, "", 0, Some(latest), None);
    calls := [Create(request, token, latest - 1), DeleteExpired(latest)];
    var issued := Step(INITIAL, calls[0]);
    states := [INITIAL, issued, Step(issued, calls[1])];
    IssuedThenSwept(request, token, latest);
    hide Step, LookUp;
    assert forall i :: 0 <= i < 2 ==> Enabled(states[i], calls[i]) && states[i + 1] == Step(states[i], calls[i]);
    NothingInEmpty(token, now);
  }

  lemma NothingInEmpty(token: string, now: int)
    ensures forall spend :: LookUp(map[], token, now, spend).1 == NotFound
  {
  }

  lemma IssuedThenSwept(request: Request, token: string, latest: int)
    requires TokenShape(token) && request == Request("a", "t", Queue, "", 0, Some(latest), None)
    ensures var created, row := Create(request, token, latest - 1), NewRow(request, token, latest - 1);
            && Enabled(INITIAL, created)
            && Step(INITIAL, created) == State(map["a" := row], map[token := Issue("a", row, 0, false)], None)
            && Step(Step(INITIAL, created), DeleteExpired(latest))
               == State(map[], map[token := Issue("a", row, 0, false)], Some(latest))
  {
  }

  /** A listing at such a time shows exactly the tokens that are still usable, one per hook. */
  lemma ListingIsExact(states: seq<State>, calls: seq<Call>, n: nat, now: int)
    requires Run(states, calls) && n <= |calls| && NotBefore(states[n].latest, now)
    ensures var listed := Serve(states[n].rows, List(now)).1.rows;
            var ledger := states[n].ledger;
            && (forall id :: id in listed ==> listed[id].token in ledger && ledger[listed[id].token].id == id)
            && (forall token :: token in ledger ==>
                  (Usable(ledger[token], Some(now)) <==>
                   ledger[token].id in listed && listed[ledger[token].id] == Current(ledger[token])))
  {
    EveryReachableTableIsSound(states, calls, n);
    var s := states[n];
    var listed := Serve(s.rows, List(now)).1.rows;
    forall token | token in s.ledger
      ensures Usable(s.ledger[token], Some(now)) <==>
              s.ledger[token].id in listed && listed[s.ledger[token].id] == Current(s.ledger[token])
    {
      if Usable(s.ledger[token], Some(now)) { assert Usable(s.ledger[token], s.latest); }
    }
  }

  /** The claims of a token granted in the first `n` calls, counted from what the callers were told. */
  ghost function Granted(states: seq<State>, calls: seq<Call>, token: string, n: nat): nat
    requires |states| == |calls| + 1 && n <= |calls|
  {
    if n == 0 then 0
    else Granted(states, calls, token, n - 1)
         + if Grants(calls[n - 1], Serve(states[n - 1].rows, calls[n - 1]).1, token) then 1 else 0
  }

  lemma OnlyIssuedTokensAreGranted(s: State, call: Call, token: string)
    requires Inv(s) && Grants(call, Serve(s.rows, call).1, token)
    ensures token in s.ledger && Usable(s.ledger[token], Some(call.now))
  {
    HolderIsIssued(s, token);
  }

  lemma {:induction false} ClaimsAreCounted(states: seq<State>, calls: seq<Call>, token: string, n: nat)
    requires Run(states, calls) && n <= |calls|
    ensures Granted(states, calls, token, n) == if token in states[n].ledger then states[n].ledger[token].claims else 0
  {
    if n > 0 {
      ClaimsAreCounted(states, calls, token, n - 1);
      EveryReachableTableIsSound(states, calls, n - 1);
      var s, call := states[n - 1], calls[n - 1];
      if Grants(call, Serve(s.rows, call).1, token) { OnlyIssuedTokensAreGranted(s, call, token); }
    }
  }

  /** `granted` claims are within the limit the token was issued with, and a living row holds what is left. */
  ghost predicate Conserved(s: State, token: string, granted: nat)
    requires token in s.ledger && s.ledger[token].hook.remaining.Some?
  {
    var issue := s.ledger[token];
    var limit := issue.hook.remaining.value;
    && granted <= limit
    && (HeldBy(s.rows, issue) ==> granted < limit && s.rows[issue.id].remaining == Some(limit - granted))
  }

  lemma RowHoldsWhatIsLeft(s: State, token: string, granted: nat)
    requires Inv(s) && token in s.ledger && s.ledger[token].hook.remaining.Some?
    requires granted == s.ledger[token].claims
    ensures Conserved(s, token, granted)
  {
    assert Sound(token, s.ledger[token]);
  }

  /** A token issued with a limit is never claimed more often, and while its row lives the row holds what is left. */
  lemma TokenIsConserved(states: seq<State>, calls: seq<Call>, token: string, n: nat)
    requires Run(states, calls) && n <= |calls|
    requires token in states[n].ledger && states[n].ledger[token].hook.remaining.Some?
    ensures Conserved(states[n], token, Granted(states, calls, token, n))
  {
    EveryReachableTableIsSound(states, calls, n);
    ClaimsAreCounted(states, calls, token, n);
    RowHoldsWhatIsLeft(states[n], token, Granted(states, calls, token, n));
  }

  /** No claim is granted at or after the expiry the token was issued with, whatever the clock did before. */
  lemma NeverClaimedWhenExpired(states: seq<State>, calls: seq<Call>, n: nat, token: string)
    requires Run(states, calls) && n < |calls| && Grants(calls[n], Serve(states[n].rows, calls[n]).1, token)
    ensures token in states[n].ledger && !Expired(states[n].ledger[token].hook.expires, calls[n].now)
  {
    EveryReachableTableIsSound(states, calls, n);
    OnlyIssuedTokensAreGranted(states[n], calls[n], token);
  }

  /** What was issued stays as issued, and what was withdrawn stays withdrawn. */
  lemma {:induction false} IssuesLast(states: seq<State>, calls: seq<Call>, token: string, i: nat, j: nat)
    requires Run(states, calls) && i <= j <= |calls| && token in states[i].ledger
    ensures token in states[j].ledger
    ensures states[j].ledger[token].hook == states[i].ledger[token].hook
    ensures states[j].ledger[token].id == states[i].ledger[token].id
    ensures states[i].ledger[token].withdrawn ==> states[j].ledger[token].withdrawn
  {
    if i < j { IssuesLast(states, calls, token, i, j - 1); }
  }

  /** Issuing an id again ends every earlier token of that id for good, and leaves the id with its task. */
  lemma ReissueKillsOldTokens(states: seq<State>, calls: seq<Call>, i: nat, j: nat, token: string, now: int)
    requires Run(states, calls) && i < j <= |calls|
    requires calls[i].Create? && Serve(states[i].rows, calls[i]).1.Created?
    requires token in states[i].ledger && states[i].ledger[token].id == calls[i].request.id
    ensures LookUp(states[j].rows, token, now, true).1 == NotFound
    ensures calls[i].request.id in states[i].rows ==>
              states[i + 1].rows[calls[i].request.id].thread == states[i].rows[calls[i].request.id].thread
  {
    assert states[i + 1].ledger[token].withdrawn;
    IssuesLast(states, calls, token, i + 1, j);
    TableAnswersAsLedger(states, calls, j, token, now, true);
  }
}

/** The registry as its methods change the table. */
module WebhookTable {
  import opened Types
  import opened Registry

  class WebhookRegistry {
    var rows: Rows
    ghost var ledger: Ledger
    ghost var latest: Option<int>

    ghost function View(): State
      reads this
    {
      State(rows, ledger, latest)
    }

    constructor ()
      ensures View() == INITIAL && Inv(View())
    {
      rows, ledger, latest := map[], map[], None;
    }

    /** The observer's record of one call. */
    ghost method Observe(call: Call, reply: Reply)
      modifies this`ledger, this`latest
      ensures ledger == Remember(old(ledger), call, reply) && latest == Looked(old(latest), call)
    {
      ledger, latest := Remember(ledger, call, reply), Looked(latest, call);
    }

    method Select(token: string) returns (holder: Option<string>)
      requires Inv(View())
      ensures holder == Holder(rows, token)
    {
      var matches := set id | id in rows && rows[id].token == token;
      HolderIsIssued(View(), token);
      if matches == {} {
        assert forall id :: id in rows ==> id !in matches;
        return None;
      }
      var id :| id in matches;
      holder := Some(id);
    }

    /** The insert either lands, takes over a row of the same task, or changes nothing. */
    method Issue(request: Request, token: string, now: int) returns (reply: Reply)
      requires Inv(View()) && Enabled(View(), Create(request, token, now))
      modifies this
      ensures Inv(View()) && View() == Step(old(View()), Create(request, token, now))
      ensures reply == Serve(old(rows), Create(request, token, now)).1
    {
      var call := Create(request, token, now);
      StepKeeps(View(), call);
      var invalid := Invalid(request, now);
      if invalid.Some? {
        reply := Refused(invalid.value);
      } else if request.id in rows && rows[request.id].thread != request.thread {
        reply := Refused(OtherThread);
      } else {
        rows := rows[request.id := NewRow(request, token, now)];
        reply := Created(rows[request.id]);
      }
      Observe(call, reply);
    }

    method InspectToken(token: string, now: int) returns (reply: Reply)
      requires Inv(View())
      modifies this
      ensures Inv(View()) && View() == Step(old(View()), Inspect(token, now))
      ensures reply == Serve(old(rows), Inspect(token, now)).1
    {
      StepKeeps(View(), Inspect(token, now));
      reply := NotFound;
      if TokenShape(token) {
        var holder := Select(token);
        if holder.Some? {
          if Expired(rows[holder.value].expires, now) {
            rows := rows - {holder.value};
          } else {
            reply := Found(holder.value, rows[holder.value]);
          }
        }
      }
      Observe(Inspect(token, now), reply);
    }

    method Spend(id: string)
      requires id in rows
      modifies this`rows
      ensures rows == Spent(old(rows), id)
    {
      if rows[id].remaining == Some(1) {
        rows := rows - {id};
      } else if rows[id].remaining.Some? {
        rows := rows[id := rows[id].(remaining := Some(rows[id].remaining.value - 1))];
      }
    }

    method ClaimToken(token: string, now: int) returns (reply: Reply)
      requires Inv(View())
      modifies this
      ensures Inv(View()) && View() == Step(old(View()), Claim(token, now))
      ensures reply == Serve(old(rows), Claim(token, now)).1
    {
      StepKeeps(View(), Claim(token, now));
      reply := NotFound;
      if TokenShape(token) {
        var holder := Select(token);
        if holder.Some? {
          if Expired(rows[holder.value].expires, now) {
            rows := rows - {holder.value};
          } else {
            reply := Found(holder.value, rows[holder.value]);
            Spend(holder.value);
          }
        }
      }
      Observe(Claim(token, now), reply);
    }

    method SweepExpired(now: int) returns (reply: Reply)
      requires Inv(View())
      modifies this
      ensures Inv(View()) && View() == Step(old(View()), DeleteExpired(now))
      ensures reply == Serve(old(rows), DeleteExpired(now)).1
    {
      StepKeeps(View(), DeleteExpired(now));
      var gone := ExpiredIds(rows, now);
      rows, reply := rows - gone, Removed(|gone|);
      Observe(DeleteExpired(now), reply);
    }

    method RevokeHook(id: string) returns (reply: Reply)
      requires Inv(View())
      modifies this
      ensures Inv(View()) && View() == Step(old(View()), Revoke(id))
      ensures reply == Serve(old(rows), Revoke(id)).1
    {
      StepKeeps(View(), Revoke(id));
      reply := Removed(if id in rows then 1 else 0);
      rows := rows - {id};
      Observe(Revoke(id), reply);
    }

    method RevokeHooksOf(thread: string) returns (reply: Reply)
      requires Inv(View())
      modifies this
      ensures Inv(View()) && View() == Step(old(View()), RevokeThread(thread))
      ensures reply == Serve(old(rows), RevokeThread(thread)).1
    {
      StepKeeps(View(), RevokeThread(thread));
      var gone := ThreadIds(rows, thread);
      rows, reply := rows - gone, Removed(|gone|);
      Observe(RevokeThread(thread), reply);
    }
  }
}
