module C1Ledger {
  /** Wire observations, the two timed messages and the status checker of a C1 exercise (`storage/c1.py`,
  `runtime/c1_runner.py`; the request counts are also those of `storage/status.py` and `runtime/status_local.py`).

  Reservations live in the permission ledger; an exercise message is a row of the delivery table. The task identity
  of a message (a name-based UUID) is represented by its number. */

  import opened Common
  import Ledger = PermissionLedger
  import Outbox = DeliveryOutbox

  // ---- ordered observations ----

  datatype Phase = Started | Responded | TransportFailure

  /** An audit row of a reservation. */
  type Audit = set<(nat, Phase)>

  /** `observe_c1_request`; `prefix` is the lane's prefix of the reservation's kind. */
  function Observe(
    calls: seq<Ledger.Call>, audit: Audit, app: string, id: nat, phase: Phase, httpStatus: Option<int>, prefix: string): Result<Audit>
  {
    if httpStatus.Some? && (!(100 <= httpStatus.value <= 599) || phase != Responded) then Err(InvalidInput)
    else if id >= |calls| || calls[id].approvalId != app || !(prefix <= calls[id].kind) then Err(Forbidden)
    else if (id, phase) in audit then Ok(audit)
    else if phase != Started && ((id, Started) !in audit || (id, Responded) in audit || (id, TransportFailure) in audit) then
      Err(Forbidden)
    else Ok(audit + {(id, phase)})
  }

  datatype Counts = Counts(reserved: nat, started: nat, responded: nat, uncertain: nat, transportFailure: nat, blocked: bool)

  function Ids(calls: seq<Ledger.Call>, app: string): set<nat> {
    set i: nat | i < |calls| && calls[i].approvalId == app
  }

  function Seen(ids: set<nat>, audit: Audit, phase: Phase): set<nat> { set i | i in ids && (i, phase) in audit }

  predicate Blocked(l: Ledger.Ledger, app: string) { app in l.scopes && l.scopes[app].blocked }

  /** `c1_request_status`. */
  function CountsOf(l: Ledger.Ledger, audit: Audit, app: string): Counts {
    var ids := Ids(l.calls, app);
    var started, responded := Seen(ids, audit, Started), Seen(ids, audit, Responded);
    Counts(|ids|, |started|, |responded|, |started - responded|, |Seen(ids, audit, TransportFailure)|,
           Blocked(l, app))
  }

  /** The field bounds of `RequestCounts`. */
  predicate CountsBounded(c: Counts) {
    c.reserved <= 20 && c.started <= 20 && c.responded <= 20 && c.uncertain <= 20 && c.transportFailure <= 20
  }

  /** What both checkers ask of the counts. */
  predicate CountsConsistent(c: Counts) {
    c.responded <= c.started <= c.reserved && c.uncertain == c.started - c.responded && c.transportFailure <= c.uncertain
  }

  /** An end follows a start, and there is one end at most. */
  predicate Orderly(audit: Audit, id: nat) {
    && ((id, Responded) in audit || (id, TransportFailure) in audit ==> (id, Started) in audit)
    && !((id, Responded) in audit && (id, TransportFailure) in audit)
  }

  ghost predicate AllOrderly(audit: Audit) { forall id :: Orderly(audit, id) }

  lemma ObserveKeepsOrder(
    calls: seq<Ledger.Call>, audit: Audit, app: string, id: nat, phase: Phase, httpStatus: Option<int>, prefix: string)
    requires AllOrderly(audit) && Observe(calls, audit, app, id, phase, httpStatus, prefix).Ok?
    ensures AllOrderly(Observe(calls, audit, app, id, phase, httpStatus, prefix).value)
  {
    forall i ensures Orderly(Observe(calls, audit, app, id, phase, httpStatus, prefix).value, i) { assert Orderly(audit, i); }
  }

  lemma {:induction false} IdsCount(calls: seq<Ledger.Call>, app: string)
    ensures |Ids(calls, app)| == Ledger.Requests(calls, app)
  {
    if calls != [] {
      var n := |calls| - 1;
      IdsCount(calls[..n], app);
      assert Ids(calls, app) == Ids(calls[..n], app) + if calls[n].approvalId == app then {n} else {};
    }
  }

  /** Orderly observations of at most 20 reservations always give counts that both validators accept. */
  lemma CountsPass(l: Ledger.Ledger, audit: Audit, app: string)
    requires Ledger.Sound(l) && AllOrderly(audit)
    requires app in l.scopes ==> l.scopes[app].permission.maxRequests <= 20
    ensures CountsBounded(CountsOf(l, audit, app)) && CountsConsistent(CountsOf(l, audit, app))
  {
    IdsCount(l.calls, app);
    assert Ledger.Balanced(l, app);
    var ids := Ids(l.calls, app);
    var started, responded, failed := Seen(ids, audit, Started), Seen(ids, audit, Responded), Seen(ids, audit, TransportFailure);
    forall i | i in responded + failed ensures i in started { assert Orderly(audit, i); }
    forall i | i in failed ensures i !in responded { assert Orderly(audit, i); }
    SubsetSize(started, ids);
    SubsetSize(responded, started);
    SubsetSize(failed, started - responded);
    assert started == responded + (started - responded);
  }

  // ---- the two messages ----

  /** `sender` tells which message, and which of its attempts, a send reservation was made for. */
  datatype State = State(
    ledger: Ledger.Ledger, audit: Audit, first: Option<Outbox.Row>, second: Option<Outbox.Row>,
    sender: map<nat, (nat, nat)>, nextToken: nat, now: Time)

  function RowOf(s: State, message: nat): Option<Outbox.Row> { if message == 1 then s.first else s.second }

  function WithRow(s: State, message: nat, row: Outbox.Row): State {
    if message == 1 then s.(first := Some(row)) else s.(second := Some(row))
  }

  /** `c1_second_due`. */
  predicate SecondDue(s: State) {
    s.first.Some? && s.first.value.state == Outbox.Accepted && s.first.value.acceptedAt.Some?
    && s.now >= s.first.value.acceptedAt.value + 120
  }

  datatype Action =
    | LedgerOp(op: Ledger.Op)
    | ObserveRequest(id: nat, phase: Phase, httpStatus: Option<int>)
    | Create(message: nat, intent: Outbox.Intent)
    | Claim(message: nat, maxAttempts: nat, leaseSeconds: nat, gates: bool)
    | ReserveSend(message: nat, token: nat, permission: Ledger.Permission, request: Ledger.Request)
    | Finish(message: nat, token: nat, receipt: Outbox.Receipt, call: nat)
    | Recover(message: nat)
    | Tick(later: Time)

  /** A receipt of an acceptance: dated on the repository clock while the lease was held, and got from a reply to a
      reservation of this very attempt, whose `responded` was recorded before the reply was handed on. */
  predicate AcceptedReply(s: State, app: string, message: nat, row: Outbox.Row, r: Outbox.Receipt, call: nat) {
    && r.acceptedAt.Some? && row.updatedAt <= r.acceptedAt.value <= s.now
    && r.messageId.Some? && r.messageId.value != ""
    && call in s.sender && s.sender[call] == (message, row.attempt)
    && call < |s.ledger.calls| && s.ledger.calls[call].approvalId == app && (call, Responded) in s.audit
  }

  /** What the environment may do at any time; `app` is the exercise's request approval. */
  predicate Enabled(s: State, app: string, a: Action) {
    match a
    case Create(m, _) => m == 1 || m == 2
    case Claim(m, max, _, _) => (m == 1 || m == 2) && RowOf(s, m).Some? && Outbox.Claimable(RowOf(s, m).value, max, s.now)
    case ReserveSend(m, token, p, _) =>
      (m == 1 || m == 2) && RowOf(s, m).Some? && !Outbox.Fenced(RowOf(s, m).value, token, s.now) && p.approvalId == app
    case Finish(m, token, r, call) =>
      && (m == 1 || m == 2) && RowOf(s, m).Some? && !Outbox.Fenced(RowOf(s, m).value, token, s.now)
      && (r.state == Outbox.Accepted || r.state == Outbox.FailedRetryable || r.state == Outbox.FailedFinal || r.state == Outbox.Unknown)
      && (r.state == Outbox.Accepted ==> AcceptedReply(s, app, m, RowOf(s, m).value, r, call))
    case Recover(m) => (m == 1 || m == 2) && RowOf(s, m).Some? && Outbox.Expired(RowOf(s, m).value, s.now)
    case Tick(later) => later >= s.now
    case _ => true
  }

  function Next(s: State, app: string, a: Action): State
    requires Enabled(s, app, a)
  {
    match a
    case LedgerOp(op) => s.(ledger := Ledger.Apply(s.ledger, op))
    case ObserveRequest(id, phase, httpStatus) =>
      var r := Observe(s.ledger.calls, s.audit, app, id, phase, httpStatus, "c1_");
      if r.Ok? then s.(audit := r.value) else s
    case Create(m, intent) =>
      if RowOf(s, m).Some? || (m == 2 && !SecondDue(s)) then s else WithRow(s, m, Outbox.NewRow(intent, s.now))
    case Claim(m, _, lease, gates) =>
      var live := gates && (m == 1 || SecondDue(s));
      WithRow(s, m, Outbox.ClaimRow(RowOf(s, m).value, live, s.nextToken, lease, s.now)).(nextToken := s.nextToken + 1)
    case ReserveSend(m, _, p, request) =>
      var r := Ledger.Reserve(s.ledger, p, request, s.now);
      if r.Ok? then s.(ledger := r.value, sender := s.sender[|s.ledger.calls| := (m, RowOf(s, m).value.attempt)]) else s
    case Finish(m, _, receipt, _) => WithRow(s, m, Outbox.FinishRow(RowOf(s, m).value, receipt, s.now))
    case Recover(m) => WithRow(s, m, Outbox.RecoverRow(RowOf(s, m).value, s.now))
    case Tick(later) => s.(now := later)
  }

  predicate Feasible(s: State, app: string, run: seq<Action>)
    decreases |run|
  {
    run == [] || (Enabled(s, app, run[0]) && Feasible(Next(s, app, run[0]), app, run[1..]))
  }

  function After(s: State, app: string, run: seq<Action>): State
    requires Feasible(s, app, run)
    decreases |run|
  {
    if run == [] then s else After(Next(s, app, run[0]), app, run[1..])
  }

  const Start := State(Ledger.EmptyLedger, {}, None, None, map[], 0, 0)

  /** Some reply to a reservation of this message was recorded. */
  predicate Answered(s: State, app: string, message: nat) {
    exists c :: c in s.sender && s.sender[c].0 == message && c < |s.ledger.calls|
      && s.ledger.calls[c].approvalId == app && (c, Responded) in s.audit
  }

  predicate AcceptedOk(s: State, app: string, message: nat, row: Outbox.Row) {
    row.state == Outbox.Accepted ==>
      row.acceptedAt.Some? && row.messageId.Some? && row.messageId.value != "" && Answered(s, app, message)
  }

  predicate FirstOk(s: State, app: string) {
    s.first.Some? ==> s.first.value.attempt <= 3 && AcceptedOk(s, app, 1, s.first.value)
  }

  /** The second message exists only after the first was accepted, and its lease and acceptance keep the distance. */
  predicate SecondOk(s: State, app: string) {
    s.second.Some? ==>
      && s.first.Some? && s.first.value.state == Outbox.Accepted && s.first.value.acceptedAt.Some?
      && s.second.value.attempt <= 3 && AcceptedOk(s, app, 2, s.second.value)
      && (s.second.value.state == Outbox.InFlight ==> s.second.value.updatedAt >= s.first.value.acceptedAt.value + 120)
      && (s.second.value.state == Outbox.Accepted ==> s.second.value.acceptedAt.value >= s.first.value.acceptedAt.value + 120)
  }

  ghost predicate Invariant(s: State, app: string) {
    && Ledger.Sound(s.ledger) && AllOrderly(s.audit) && (forall c :: c in s.sender ==> c < |s.ledger.calls|)
    && FirstOk(s, app) && SecondOk(s, app)
  }

  /** Calls are only appended, and keep their approval. */
  lemma CallsGrow(l: Ledger.Ledger, op: Ledger.Op)
    ensures |Ledger.Apply(l, op).calls| >= |l.calls|
    ensures forall i :: 0 <= i < |l.calls| ==> Ledger.Apply(l, op).calls[i].approvalId == l.calls[i].approvalId
  {
  }

  lemma AnsweredStays(s: State, s': State, app: string, message: nat)
    requires Answered(s, app, message) && s.audit <= s'.audit
    requires forall c :: c in s.sender ==> c in s'.sender && s'.sender[c] == s.sender[c]
    requires |s'.ledger.calls| >= |s.ledger.calls|
    requires forall i :: 0 <= i < |s.ledger.calls| ==> s'.ledger.calls[i].approvalId == s.ledger.calls[i].approvalId
    ensures Answered(s', app, message)
  {
    var c :| c in s.sender && s.sender[c].0 == message && c < |s.ledger.calls|
      && s.ledger.calls[c].approvalId == app && (c, Responded) in s.audit;
    assert c in s'.sender;
  }

  /** A step that leaves the rows alone keeps what they promise. */
  lemma RowsStay(s: State, s': State, app: string)
    requires FirstOk(s, app) && SecondOk(s, app) && s'.first == s.first && s'.second == s.second && s.audit <= s'.audit
    requires forall c :: c in s.sender ==> c in s'.sender && s'.sender[c] == s.sender[c]
    requires |s'.ledger.calls| >= |s.ledger.calls|
    requires forall i :: 0 <= i < |s.ledger.calls| ==> s'.ledger.calls[i].approvalId == s.ledger.calls[i].approvalId
    ensures FirstOk(s', app) && SecondOk(s', app)
  {
    if Answered(s, app, 1) { AnsweredStays(s, s', app, 1); }
    if Answered(s, app, 2) { AnsweredStays(s, s', app, 2); }
  }

  lemma LedgerStep(s: State, app: string, a: Action)
    requires Invariant(s, app) && Enabled(s, app, a) && (a.LedgerOp? || a.ReserveSend?)
    ensures Invariant(Next(s, app, a), app)
  {
    var s' := Next(s, app, a);
    var op := if a.LedgerOp? then a.op else Ledger.ReserveOp(a.permission, a.request, s.now);
    Ledger.ApplyKeepsSound(s.ledger, op);
    CallsGrow(s.ledger, op);
    assert s'.ledger == Ledger.Apply(s.ledger, op);
    RowsStay(s, s', app);
  }

  lemma RowStep(s: State, app: string, a: Action)
    requires Invariant(s, app) && Enabled(s, app, a) && (a.Create? || a.Claim? || a.Finish? || a.Recover?)
    ensures FirstOk(Next(s, app, a), app) && SecondOk(Next(s, app, a), app)
  {
    var s' := Next(s, app, a);
    if Answered(s, app, 1) { AnsweredStays(s, s', app, 1); }
    if Answered(s, app, 2) { AnsweredStays(s, s', app, 2); }
    if a.Finish? && a.receipt.state == Outbox.Accepted { assert a.call in s'.sender && Answered(s', app, a.message); }
  }

  lemma StepKeeps(s: State, app: string, a: Action)
    requires Invariant(s, app) && Enabled(s, app, a)
    ensures Invariant(Next(s, app, a), app)
  {
    match a {
      case LedgerOp(_) => LedgerStep(s, app, a);
      case ReserveSend(_, _, _, _) => LedgerStep(s, app, a);
      case ObserveRequest(id, phase, httpStatus) =>
        if Observe(s.ledger.calls, s.audit, app, id, phase, httpStatus, "c1_").Ok? {
          ObserveKeepsOrder(s.ledger.calls, s.audit, app, id, phase, httpStatus, "c1_");
        }
        RowsStay(s, Next(s, app, a), app);
      case Tick(_) => RowsStay(s, Next(s, app, a), app);
      case _ => RowStep(s, app, a);
    }
  }

  lemma {:induction false} RunKeeps(s: State, app: string, run: seq<Action>)
    requires Invariant(s, app) && Feasible(s, app, run)
    ensures Invariant(After(s, app, run), app)
    decreases |run|
  {
    if run != [] {
      StepKeeps(s, app, run[0]);
      RunKeeps(Next(s, app, run[0]), app, run[1..]);
    }
  }

  // ---- the reported status and its checker ----

  datatype Status = Stopped | UnknownOutcome | Completed | Unfinished | OtherFinal

  datatype Task = Task(message: nat, state: Outbox.State, attempt: nat, messageId: Option<string>, acceptedAt: Option<Time>)

  datatype Report = Report(status: Status, requests: Counts, tasks: seq<Task>)

  function TaskOf(message: nat, row: Outbox.Row): Task { Task(message, row.state, row.attempt, row.messageId, row.acceptedAt) }

  predicate Uncertain(row: Option<Outbox.Row>) { row.Some? && (row.value.state == Outbox.Unknown || row.value.state == Outbox.InFlight) }

  /** `selected_status`: the status its caller settled on, if any, and otherwise the one the rows show, up to the
      statuses that are not completions. */
  function Selected(s: State, app: string, final: Option<Status>): Report {
    var counts := CountsOf(s.ledger, s.audit, app);
    var shown :=
      if counts.blocked then Stopped
      else if Uncertain(s.first) || Uncertain(s.second) then UnknownOutcome
      else if BothAccepted(s) then Completed
      else Unfinished;
    Report(if final.Some? then final.value else shown, counts,
           (if s.first.Some? then [TaskOf(1, s.first.value)] else []) + (if s.second.Some? then [TaskOf(2, s.second.value)] else []))
  }

  predicate BothAccepted(s: State) {
    s.first.Some? && s.second.Some? && s.first.value.state == Outbox.Accepted && s.second.value.state == Outbox.Accepted
  }

  /** The statuses `run_two_tasks` may ask for: completion only after it saw the second message accepted, at some
      earlier point of the run. */
  ghost predicate MayReport(run: seq<Action>, app: string, final: Option<Status>) {
    final == Some(Completed) ==>
      exists n :: 0 <= n <= |run| && Feasible(Start, app, run[..n]) && SecondAccepted(After(Start, app, run[..n]))
  }

  predicate SecondAccepted(s: State) { s.second.Some? && s.second.value.state == Outbox.Accepted }

  /** The receipt's message ID pattern: 1 to 160 letters, digits, `_` and `-`. */
  predicate WellFormed(id: string) {
    1 <= |id| <= 160
    && forall i :: 0 <= i < |id| ==>
         'A' <= id[i] <= 'Z' || 'a' <= id[i] <= 'z' || '0' <= id[i] <= '9' || id[i] == '_' || id[i] == '-'
  }

  /** `TaskReceipt`. */
  predicate ValidTask(t: Task) {
    && (t.message == 1 || t.message == 2) && t.attempt <= 3 && (t.messageId.Some? ==> WellFormed(t.messageId.value))
    && t.state != Outbox.Acked && t.state != Outbox.DryRun
  }

  /** `checked_status` of `c1_runner.py` on a report of a completed exercise. */
  predicate Checked(r: Report) {
    && CountsBounded(r.requests) && |r.tasks| <= 2 && (forall i :: 0 <= i < |r.tasks| ==> ValidTask(r.tasks[i]))
    && CountsConsistent(r.requests)
    && (r.status == Completed ==>
          && !r.requests.blocked && r.requests.responded >= 2
          && |r.tasks| == 2 && r.tasks[0].message == 1 && r.tasks[1].message == 2
          && (forall i :: 0 <= i < 2 ==>
                r.tasks[i].state == Outbox.Accepted && r.tasks[i].messageId.Some? && r.tasks[i].messageId.value != ""
                && r.tasks[i].acceptedAt.Some?)
          && r.tasks[0].messageId != r.tasks[1].messageId
          && r.tasks[1].acceptedAt.value >= r.tasks[0].acceptedAt.value + 120)
  }

  lemma TwoAnswers(s: State, app: string)
    requires Answered(s, app, 1) && Answered(s, app, 2)
    ensures CountsOf(s.ledger, s.audit, app).responded >= 2
  {
    var c :| c in s.sender && s.sender[c].0 == 1 && c < |s.ledger.calls|
      && s.ledger.calls[c].approvalId == app && (c, Responded) in s.audit;
    var d :| d in s.sender && s.sender[d].0 == 2 && d < |s.ledger.calls|
      && s.ledger.calls[d].approvalId == app && (d, Responded) in s.audit;
    var responded := Seen(Ids(s.ledger.calls, app), s.audit, Responded);
    assert {c, d} <= responded;
    SubsetSize({c, d}, responded);
  }

  lemma StartOk(app: string)
    ensures Invariant(Start, app)
  {
  }

  lemma StepKeepsAccepted(s: State, app: string, a: Action)
    requires Invariant(s, app) && Enabled(s, app, a) && SecondAccepted(s)
    ensures SecondAccepted(Next(s, app, a))
  {
  }

  lemma {:induction false} AcceptedStays(s: State, app: string, run: seq<Action>, n: nat)
    requires Invariant(s, app) && Feasible(s, app, run) && n <= |run|
    requires Feasible(s, app, run[..n]) && SecondAccepted(After(s, app, run[..n]))
    ensures SecondAccepted(After(s, app, run))
    decreases |run|
  {
    if run != [] {
      var next := Next(s, app, run[0]);
      StepKeeps(s, app, run[0]);
      if n == 0 {
        StepKeepsAccepted(s, app, run[0]);
        assert run[1..][..0] == [];
        AcceptedStays(next, app, run[1..], 0);
      } else {
        assert run[..n][0] == run[0] && run[..n][1..] == run[1..][..n - 1];
        AcceptedStays(next, app, run[1..], n - 1);
      }
    } else {
      assert run[..n] == run;
    }
  }

  lemma ReportedCompleted(run: seq<Action>, app: string, final: Option<Status>)
    requires Feasible(Start, app, run) && MayReport(run, app, final)
    requires Selected(After(Start, app, run), app, final).status == Completed
    ensures Invariant(After(Start, app, run), app) && BothAccepted(After(Start, app, run))
  {
    StartOk(app);
    RunKeeps(Start, app, run);
    if final.Some? {
      var n :| 0 <= n <= |run| && Feasible(Start, app, run[..n]) && SecondAccepted(After(Start, app, run[..n]));
      AcceptedStays(Start, app, run, n);
    }
  }

  /** Every durable state reported as completed has its second acceptance at least 120 seconds after its first. */
  lemma CompletedKeepsDistance(run: seq<Action>, app: string, final: Option<Status>)
    requires Feasible(Start, app, run) && MayReport(run, app, final)
    requires Selected(After(Start, app, run), app, final).status == Completed
    ensures var s := After(Start, app, run);
            && BothAccepted(s) && s.first.value.acceptedAt.Some? && s.second.value.acceptedAt.Some?
            && s.second.value.acceptedAt.value >= s.first.value.acceptedAt.value + 120
  {
    ReportedCompleted(run, app, final);
  }

  /** Exactly when the checker accepts a state reported as completed: when the approval is not blocked by then and the
      two provider message IDs are distinct and well-formed. The counts and the distance never fail it, and without a
      status of the caller's the approval is not blocked. */
  lemma CompletedChecked(run: seq<Action>, app: string, final: Option<Status>)
    requires Feasible(Start, app, run) && MayReport(run, app, final)
    requires Selected(After(Start, app, run), app, final).status == Completed
    requires var l := After(Start, app, run).ledger; app in l.scopes ==> l.scopes[app].permission.maxRequests <= 20
    ensures var s := After(Start, app, run);
            && BothAccepted(s) && s.first.value.messageId.Some? && s.second.value.messageId.Some?
            && (final.None? ==> !Blocked(s.ledger, app))
            && (Checked(Selected(s, app, final)) <==>
                (!Blocked(s.ledger, app)
                 && WellFormed(s.first.value.messageId.value) && WellFormed(s.second.value.messageId.value)
                 && s.first.value.messageId != s.second.value.messageId))
  {
    ReportedCompleted(run, app, final);
    var s := After(Start, app, run);
    CountsPass(s.ledger, s.audit, app);
    TwoAnswers(s, app);
    CheckedPair(Selected(s, app, final), s.first.value, s.second.value);
  }

  /** The checker on two accepted messages whose counts and distance are in order. */
  lemma CheckedPair(r: Report, first: Outbox.Row, second: Outbox.Row)
    requires r.status == Completed && r.tasks == [TaskOf(1, first)] + [TaskOf(2, second)]
    requires CountsBounded(r.requests) && CountsConsistent(r.requests) && r.requests.responded >= 2
    requires first.state == Outbox.Accepted && second.state == Outbox.Accepted && first.attempt <= 3 && second.attempt <= 3
    requires first.messageId.Some? && first.messageId.value != "" && second.messageId.Some? && second.messageId.value != ""
    requires first.acceptedAt.Some? && second.acceptedAt.Some? && second.acceptedAt.value >= first.acceptedAt.value + 120
    ensures Checked(r) <==>
              (!r.requests.blocked && WellFormed(first.messageId.value) && WellFormed(second.messageId.value)
               && first.messageId != second.messageId)
  {
    assert r.tasks[0] == TaskOf(1, first) && r.tasks[1] == TaskOf(2, second);
  }

  // ---- a completed exercise stopped before its report ----

  const App := "app"
  const Grant := Ledger.Permission(App, 0, 1000, 20, 0, "")
  const Ask := Ledger.Request("c1_message", 20, 0, 0, 0, 0, true)

  /** Nothing but at most `n` requests of the exercise was charged. */
  predicate Charged(l: Ledger.Ledger, n: nat) {
    && (App in l.scopes ==> l.scopes[App] == Ledger.Scope(Grant, false))
    && Ledger.Used(l.used, Ledger.Key(0, Ledger.ScopeRequests(App))) <= n
    && Ledger.Used(l.used, Ledger.Key(0, Ledger.Provider("c1_message"))) <= n
  }

  lemma Reserves(l: Ledger.Ledger, now: Time, n: nat)
    requires Charged(l, n) && n < 20 && 0 <= now < 1000
    ensures Ledger.Reserve(l, Grant, Ask, now).Ok?
    ensures var after := Ledger.Reserve(l, Grant, Ask, now).value;
            Charged(after, n + 1) && App in after.scopes && |after.calls| == |l.calls| + 1 && after.calls[|l.calls|].approvalId == App
            && after.calls[|l.calls|].kind == "c1_message"
  {
    var charges := Ledger.Charges(Grant, Ask, now);
    var sorted := Ledger.Sort(charges);
    Ledger.ChargesDistinct(Grant, Ask, now);
    Ledger.SortedDistinct(charges, sorted);
    assert charges[0] in charges && charges[1] in charges;
    Ledger.ChargeAllMeans(l.used, sorted);
  }

  lemma Cons(s: State, app: string, a: Action, rest: seq<Action>)
    requires Enabled(s, app, a) && Feasible(Next(s, app, a), app, rest)
    ensures Feasible(s, app, [a] + rest) && After(s, app, [a] + rest) == After(Next(s, app, a), app, rest)
  {
    assert ([a] + rest)[1..] == rest;
  }

  lemma {:induction false} Chain(s: State, app: string, run: seq<Action>, more: seq<Action>)
    requires Feasible(s, app, run) && Feasible(After(s, app, run), app, more)
    ensures Feasible(s, app, run + more) && After(s, app, run + more) == After(After(s, app, run), app, more)
    decreases |run|
  {
    if run == [] {
      assert run + more == more;
    } else {
      Chain(Next(s, app, run[0]), app, run[1..], more);
      assert run + more == [run[0]] + (run[1..] + more);
      Cons(s, app, run[0], run[1..] + more);
    }
  }

  const Note := Outbox.Intent("intent", Outbox.Exercise, "exercise", 1, "recipient", Outbox.Feishu)

  function Good(messageId: string, at: Time): Outbox.Receipt {
    Outbox.Receipt("delivery", "intent", "recipient", 1, 1, Outbox.Accepted, Some(messageId), Some(at), None)
  }

  /** The state once a message is claimed and its request reserved. */
  function Held(s: State, m: nat): State
    requires m == 1 || m == 2
  {
    var row := Outbox.ClaimRow(Outbox.NewRow(Note, s.now), true, s.nextToken, 60, s.now);
    var r := Ledger.Reserve(s.ledger, Grant, Ask, s.now);
    WithRow(s, m, row).(
      nextToken := s.nextToken + 1, ledger := if r.Ok? then r.value else s.ledger, sender := s.sender[|s.ledger.calls| := (m, 1)])
  }

  predicate Ready(s: State, m: nat, n: nat) {
    && (m == 1 || (m == 2 && SecondDue(s))) && RowOf(s, m).None? && Charged(s.ledger, n) && n < 20 && 0 <= s.now < 1000
    && forall phase :: (|s.ledger.calls|, phase) !in s.audit
  }

  lemma Holds(s: State, m: nat, n: nat) returns (run: seq<Action>)
    requires Ready(s, m, n)
    ensures Feasible(s, App, run) && After(s, App, run) == Held(s, m)
  {
    Reserves(s.ledger, s.now, n);
    var create, claim := Create(m, Note), Claim(m, 3, 60, true);
    var reserve := ReserveSend(m, s.nextToken, Grant, Ask);
    var s1 := Next(s, App, create);
    var s2 := Next(s1, App, claim);
    assert Next(s2, App, reserve) == Held(s, m);
    Cons(s2, App, reserve, []);
    Cons(s1, App, claim, [reserve]);
    Cons(s, App, create, [claim] + [reserve]);
    run := [create] + ([claim] + [reserve]);
    assert [reserve] + [] == [reserve];
  }

  lemma Observes(s: State, id: nat)
    requires id < |s.ledger.calls| && s.ledger.calls[id].approvalId == App && s.ledger.calls[id].kind == "c1_message"
    requires forall phase :: (id, phase) !in s.audit
    ensures var s1 := s.(audit := s.audit + {(id, Started)});
            && Next(s, App, ObserveRequest(id, Started, None)) == s1
            && Next(s1, App, ObserveRequest(id, Responded, Some(200))) == s.(audit := s.audit + {(id, Started)} + {(id, Responded)})
  {
    assert "c1_message"[..3] == "c1_";
  }

  lemma Ends(s: State, m: nat, id: nat, messageId: string) returns (run: seq<Action>)
    requires (m == 1 || m == 2) && RowOf(s, m).Some? && messageId != ""
    requires var row := RowOf(s, m).value;
             row.state == Outbox.InFlight && row.leaseToken.Some? && row.leaseUntil.Some? && row.leaseUntil.value > s.now
             && row.updatedAt <= s.now
    requires id < |s.ledger.calls| && s.ledger.calls[id].approvalId == App && s.ledger.calls[id].kind == "c1_message"
    requires id in s.sender && s.sender[id] == (m, RowOf(s, m).value.attempt) && forall phase :: (id, phase) !in s.audit
    ensures Feasible(s, App, run)
    ensures After(s, App, run)
      == WithRow(s, m, Outbox.FinishRow(RowOf(s, m).value, Good(messageId, s.now), s.now)).(
           audit := s.audit + {(id, Started)} + {(id, Responded)})
  {
    var start, answer := ObserveRequest(id, Started, None), ObserveRequest(id, Responded, Some(200));
    var finish := Finish(m, RowOf(s, m).value.leaseToken.value, Good(messageId, s.now), id);
    Observes(s, id);
    var s1 := s.(audit := s.audit + {(id, Started)});
    var s2 := s.(audit := s.audit + {(id, Started)} + {(id, Responded)});
    Cons(s2, App, finish, []);
    Cons(s1, App, answer, [finish]);
    Cons(s, App, start, [answer] + [finish]);
    run := [start] + ([answer] + [finish]);
    assert [finish] + [] == [finish];
  }

  lemma Sends(s: State, m: nat, n: nat, messageId: string) returns (run: seq<Action>)
    requires Ready(s, m, n) && messageId != ""
    ensures Feasible(s, App, run)
    ensures var s' := After(s, App, run);
            && RowOf(s', m).Some? && RowOf(s', 3 - m) == RowOf(s, 3 - m) && s'.now == s.now && Charged(s'.ledger, n + 1)
            && RowOf(s', m).value.state == Outbox.Accepted && RowOf(s', m).value.acceptedAt == Some(s.now)
            && RowOf(s', m).value.messageId == Some(messageId) && App in s'.ledger.scopes
            && |s'.ledger.calls| == |s.ledger.calls| + 1
            && s'.audit == s.audit + {(|s.ledger.calls|, Started)} + {(|s.ledger.calls|, Responded)}
  {
    Reserves(s.ledger, s.now, n);
    var first := Holds(s, m, n);
    var second := Ends(Held(s, m), m, |s.ledger.calls|, messageId);
    Chain(s, App, first, second);
    run := first + second;
  }

  /** Both messages can be accepted, under any two message IDs. */
  lemma BothSent(a: string, b: string) returns (run: seq<Action>)
    requires a != "" && b != ""
    ensures Feasible(Start, App, run)
    ensures var s := After(Start, App, run);
            && BothAccepted(s) && s.first.value.messageId == Some(a) && s.second.value.messageId == Some(b)
            && App in s.ledger.scopes && s.ledger.scopes[App] == Ledger.Scope(Grant, false)
  {
    var one := Sends(Start, 1, 0, a);
    var s1 := After(Start, App, one);
    var tick := Tick(120);
    var s2 := Next(s1, App, tick);
    var two := Sends(s2, 2, 1, b);
    Cons(s1, App, tick, two);
    Chain(Start, App, one, [tick] + two);
    run := one + ([tick] + two);
  }

  /** A stop between the second acceptance and the final report: the report still says completed, with the approval
      blocked, and the checker refuses it although the message IDs are distinct and well-formed. */
  lemma StoppedAfterCompletion() returns (run: seq<Action>)
    ensures Feasible(Start, App, run) && MayReport(run, App, Some(Completed))
    ensures var s := After(Start, App, run);
            && s.first.Some? && s.first.value.messageId == Some("m1") && s.second.Some? && s.second.value.messageId == Some("m2")
            && Selected(s, App, Some(Completed)).status == Completed && !Checked(Selected(s, App, Some(Completed)))
            && Selected(s, App, None).status == Stopped
  {
    var sent := BothSent("m1", "m2");
    var s := After(Start, App, sent);
    var stop := LedgerOp(Ledger.StopOp(Grant));
    Cons(s, App, stop, []);
    assert [stop] + [] == [stop];
    Chain(Start, App, sent, [stop]);
    run := sent + [stop];
    assert run[..|sent|] == sent;
  }

  /** In every reachable state, whatever its status, the counts pass both validators. */
  lemma CountsAlwaysPass(run: seq<Action>, app: string)
    requires Feasible(Start, app, run)
    requires var l := After(Start, app, run).ledger; app in l.scopes ==> l.scopes[app].permission.maxRequests <= 20
    ensures var c := CountsOf(After(Start, app, run).ledger, After(Start, app, run).audit, app);
            CountsBounded(c) && CountsConsistent(c)
  {
    StartOk(app);
    RunKeeps(Start, app, run);
    CountsPass(After(Start, app, run).ledger, After(Start, app, run).audit, app);
  }

  // ---- the repository ----

  class ObservationRepository {
    var audit: seq<(nat, Phase)>

    constructor ()
      ensures audit == []
    {
      audit := [];
    }

    /** `observe_c1_request`. */
    method ObserveRequest(calls: seq<Ledger.Call>, app: string, id: nat, phase: Phase, httpStatus: Option<int>, prefix: string)
      returns (res: Result<()>)
      modifies this
      ensures var spec := Observe(calls, ToSet(old(audit)), app, id, phase, httpStatus, prefix);
              && (res.Ok? <==> spec.Ok?)
              && (if res.Ok? then ToSet(audit) == spec.value else audit == old(audit) && spec == Err(res.code))
      ensures Distinct(old(audit)) ==> Distinct(audit)
    {
      if httpStatus.Some? && !(100 <= httpStatus.value <= 599) {
        return Err(InvalidInput);
      }
      if httpStatus.Some? && phase != Responded {
        return Err(InvalidInput);
      }
      if id >= |calls| || calls[id].approvalId != app || !(prefix <= calls[id].kind) {
        return Err(Forbidden);
      }
      if (id, phase) in audit {
        return Ok(());
      }
      if phase != Started && ((id, Started) !in audit || (id, Responded) in audit || (id, TransportFailure) in audit) {
        return Err(Forbidden);
      }
      audit := audit + [(id, phase)];
      assert ToSet(audit) == ToSet(old(audit)) + {(id, phase)};
      res := Ok(());
    }

    /** `c1_request_status`: the audit rows of the approval's reservations, sorted into phases. */
    method RequestStatus(l: Ledger.Ledger, app: string) returns (counts: Counts)
      ensures counts == CountsOf(l, ToSet(audit), app)
    {
      var ids := Ids(l.calls, app);
      var started: set<nat>, responded: set<nat>, failed: set<nat> := {}, {}, {};
      for n := 0 to |audit|
        invariant started == Seen(ids, ToSet(audit[..n]), Started)
        invariant responded == Seen(ids, ToSet(audit[..n]), Responded)
        invariant failed == Seen(ids, ToSet(audit[..n]), TransportFailure)
      {
        var (id, phase) := audit[n];
        assert ToSet(audit[..n + 1]) == ToSet(audit[..n]) + {(id, phase)};
        if id in ids {
          match phase {
            case Started => started := started + {id};
            case Responded => responded := responded + {id};
            case TransportFailure => failed := failed + {id};
          }
        }
      }
      assert audit[..|audit|] == audit;
      counts := Counts(|ids|, |started|, |responded|, |started - responded|, |failed|, app in l.scopes && l.scopes[app].blocked);
    }
  }
}
