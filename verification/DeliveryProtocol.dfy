module DeliveryProtocol {
  /** At-most-once acceptance of one delivery's message by the platform, over every interleaving of
  workers, slow or lost results, lease expiry, recovery and acknowledgement.

  Each successful claim is one `Attempt`, named by its lease token. A worker may stop taking steps at any
  point (a crash), may dispatch long after its lease expired, and may report late. A dispatched request
  stays in the network until the platform takes or refuses it, also after its worker gave up. */

  import opened Common
  import opened DeliveryOutbox
  import Send = SendOutcome

  datatype Fate = NotSent | InNetwork | Taken | Refused

  datatype Phase = Holding | Concluded(verdict: Send.Verdict) | Closed

  datatype Attempt = Attempt(delivery: Id, number: nat, phase: Phase, fate: Fate)

  datatype System = System(rows: map<Id, Row>, attempts: map<Token, Attempt>, now: Time)

  datatype Action =
    | Tick(seconds: nat)
    | Create(id: Id, intent: Intent)
    | ClaimOne(id: Id, live: bool, token: Token, maxAttempts: nat, leaseSeconds: nat)
    | Dispatch(token: Token)
    | PlatformTakes(token: Token)
    | PlatformRefuses(token: Token)
    | Conclude(token: Token, verdict: Send.Verdict, event: Send.Event)
    | Finish(token: Token, receipt: Receipt)
    | Recover(id: Id)
    | Acknowledge(id: Id)

  function VerdictState(v: Send.Verdict): State {
    match v
    case Accepted(_) => State.Accepted
    case DryRun => State.DryRun
    case FailedRetryable => State.FailedRetryable
    case FailedFinal => State.FailedFinal
    case Unknown => State.Unknown
  }

  function ClaimOf(s: System, token: Token): Claim
    requires token in s.attempts && s.attempts[token].delivery in s.rows
  {
    var a := s.attempts[token];
    Claim(a.delivery, s.rows[a.delivery].intent, token, a.number)
  }

  /** What each step needs. `Conclude` ties the worker's verdict to what the platform did through the
      environment assumptions and the channel's contract (`Send.Proves`). */
  ghost predicate Enabled(s: System, a: Action) {
    match a
    case Tick(_) => true
    case Create(id, intent) => id !in s.rows
    case ClaimOne(id, live, token, maxAttempts, _) =>
      && id in s.rows
      && Claimable(s.rows[id], maxAttempts, s.now)
      && token !in s.attempts
    case Dispatch(token) =>
      && token in s.attempts
      && s.attempts[token].phase == Holding && s.attempts[token].fate == NotSent
      && s.attempts[token].delivery in s.rows
      && s.rows[s.attempts[token].delivery].intent.channel == Feishu
    case PlatformTakes(token) => token in s.attempts && s.attempts[token].fate == InNetwork
    case PlatformRefuses(token) => token in s.attempts && s.attempts[token].fate == InNetwork
    case Conclude(token, verdict, event) =>
      && token in s.attempts
      && s.attempts[token].phase == Holding
      && s.attempts[token].delivery in s.rows
      && var fate := s.attempts[token].fate;
      && Send.Proves(verdict, fate != NotSent, event)
      && (fate == Taken ==> Send.MayHaveTaken(event))
      && (fate != NotSent && event.Reply? && Send.ProvesAcceptance(event.status, event.body) ==> fate == Taken)
      && (verdict.DryRun? ==> s.rows[s.attempts[token].delivery].intent.channel == DryRunChannel)
    case Finish(token, receipt) =>
      && token in s.attempts
      && s.attempts[token].phase.Concluded?
      && s.attempts[token].delivery in s.rows
      && receipt.state == VerdictState(s.attempts[token].phase.verdict)
    case Recover(id) => id in s.rows && Expired(s.rows[id], s.now)
    case Acknowledge(id) => id in s.rows && s.rows[id].state in {State.Accepted, Acked, State.DryRun}
  }

  ghost function Next(s: System, a: Action): System
    requires Enabled(s, a)
  {
    match a
    case Tick(seconds) => s.(now := s.now + seconds)
    case Create(id, intent) => s.(rows := s.rows[id := NewRow(intent, s.now)])
    case ClaimOne(id, live, token, _, leaseSeconds) =>
      var row := ClaimRow(s.rows[id], live, token, leaseSeconds, s.now);
      s.(rows := s.rows[id := row],
         attempts := if live then s.attempts[token := Attempt(id, row.attempt, Holding, NotSent)] else s.attempts)
    case Dispatch(token) => s.(attempts := s.attempts[token := s.attempts[token].(fate := InNetwork)])
    case PlatformTakes(token) => s.(attempts := s.attempts[token := s.attempts[token].(fate := Taken)])
    case PlatformRefuses(token) => s.(attempts := s.attempts[token := s.attempts[token].(fate := Refused)])
    case Conclude(token, verdict, event) =>
      var held := s.attempts[token];
      var fate := if held.fate == InNetwork && !Send.MayHaveTaken(event) then Refused else held.fate;
      s.(attempts := s.attempts[token := held.(phase := Concluded(verdict), fate := fate)])
    case Finish(token, receipt) =>
      var held := s.attempts[token];
      var claim := ClaimOf(s, token);
      var rows := if FinishCheck(s.rows, claim, receipt, s.now).None?
                  then s.rows[held.delivery := FinishRow(s.rows[held.delivery], receipt, s.now)] else s.rows;
      s.(rows := rows, attempts := s.attempts[token := held.(phase := Closed)])
    case Recover(id) => s.(rows := s.rows[id := RecoverRow(s.rows[id], s.now)])
    case Acknowledge(id) => s.(rows := s.rows[id := AckRow(s.rows[id], s.now)])
  }

  /** The states from which an action sequence is possible, and where it leads. */
  ghost predicate Feasible(s: System, run: seq<Action>)
    decreases |run|
  {
    run == [] || (Enabled(s, run[0]) && Feasible(Next(s, run[0]), run[1..]))
  }

  ghost function After(s: System, run: seq<Action>): System
    requires Feasible(s, run)
    decreases |run|
  {
    if run == [] then s else After(Next(s, run[0]), run[1..])
  }

  const Start := System(map[], map[], 0)

  /** The attempt can neither have been taken nor be taken later. */
  predicate Harmless(a: Attempt) {
    a.phase == Closed && a.fate in {NotSent, Refused}
  }

  /** States that promise the platform does not have the message. */
  predicate PromisesAbsence(state: State) {
    state in {Pending, State.FailedRetryable, State.FailedFinal, State.DryRun}
  }

  ghost predicate AttemptOk(s: System, token: Token)
    requires token in s.attempts
  {
    var a := s.attempts[token];
    && a.delivery in s.rows
    && 1 <= a.number <= s.rows[a.delivery].attempt
    && (a.number < s.rows[a.delivery].attempt || PromisesAbsence(s.rows[a.delivery].state) ==> Harmless(a))
    && (s.rows[a.delivery].intent.channel == DryRunChannel ==> a.fate == NotSent)
    && (a.phase.Concluded? ==>
          && (a.phase.verdict.Accepted? ==> a.fate == Taken)
          && (a.phase.verdict.FailedRetryable? || a.phase.verdict.FailedFinal? || a.phase.verdict.DryRun? ==>
                a.fate in {NotSent, Refused}))
  }

  ghost predicate TakenOnce(s: System, id: Id) {
    exists t :: t in s.attempts && s.attempts[t].delivery == id && s.attempts[t].fate == Taken
  }

  ghost predicate RowOk(s: System, id: Id)
    requires id in s.rows
  {
    var row := s.rows[id];
    && row.attempt <= MaxAttempts
    && (row.state in {Pending, State.FailedRetryable} ==> row.attempt < MaxAttempts)
    && (row.state == InFlight ==>
          && row.leaseToken.Some? && row.leaseUntil.Some?
          && row.leaseToken.value in s.attempts
          && s.attempts[row.leaseToken.value].delivery == id
          && s.attempts[row.leaseToken.value].number == row.attempt)
    && (row.state in {State.Accepted, Acked} ==> TakenOnce(s, id))
  }

  ghost predicate Invariant(s: System) {
    && (forall t :: t in s.attempts ==> AttemptOk(s, t))
    && (forall id :: id in s.rows ==> RowOk(s, id))
    && (forall t, u | t in s.attempts && u in s.attempts && t != u && s.attempts[t].delivery == s.attempts[u].delivery ::
          s.attempts[t].number != s.attempts[u].number)
  }

  /** A row changed by a step that leaves the attempts alone. */
  lemma RowStep(s: System, s': System, id: Id)
    requires Invariant(s) && id in s.rows && id in s'.rows
    requires s' == s.(rows := s.rows[id := s'.rows[id]])
    requires s'.rows[id].attempt == s.rows[id].attempt
    requires s'.rows[id].intent == s.rows[id].intent
    requires PromisesAbsence(s'.rows[id].state) ==> PromisesAbsence(s.rows[id].state)
    requires RowOk(s', id)
    ensures Invariant(s')
  {
    forall t | t in s'.attempts ensures AttemptOk(s', t) { assert AttemptOk(s, t); }
    forall other | other in s'.rows ensures RowOk(s', other) {
      if other != id {
        assert RowOk(s, other);
        KeepTaken(s, s', other);
      }
    }
  }

  lemma KeepTaken(s: System, s': System, id: Id)
    requires forall t :: t in s.attempts ==>
               t in s'.attempts && s'.attempts[t].delivery == s.attempts[t].delivery
               && (s.attempts[t].fate == Taken ==> s'.attempts[t].fate == Taken)
    ensures TakenOnce(s, id) ==> TakenOnce(s', id)
  {
    if TakenOnce(s, id) {
      var t :| t in s.attempts && s.attempts[t].delivery == id && s.attempts[t].fate == Taken;
      assert s'.attempts[t].fate == Taken;
    }
  }

  /** An attempt changed by a step that leaves the rows alone. */
  lemma AttemptStep(s: System, s': System, token: Token)
    requires Invariant(s) && token in s.attempts && token in s'.attempts
    requires s' == s.(attempts := s.attempts[token := s'.attempts[token]])
    requires s'.attempts[token].delivery == s.attempts[token].delivery
    requires s'.attempts[token].number == s.attempts[token].number
    requires s.attempts[token].fate == Taken ==> s'.attempts[token].fate == Taken
    requires AttemptOk(s', token)
    ensures Invariant(s')
  {
    forall t | t in s'.attempts ensures AttemptOk(s', t) { assert AttemptOk(s, t); }
    forall id | id in s'.rows ensures RowOk(s', id) {
      assert RowOk(s, id);
      KeepTaken(s, s', id);
    }
  }

  lemma ClaimKeeps(s: System, a: Action)
    requires Invariant(s) && a.ClaimOne? && Enabled(s, a)
    ensures Invariant(Next(s, a))
  {
    var s' := Next(s, a);
    assert RowOk(s, a.id);
    if a.live {
      forall t | t in s'.attempts ensures AttemptOk(s', t) {
        if t != a.token { assert AttemptOk(s, t); }
      }
      forall id | id in s'.rows ensures RowOk(s', id) {
        assert RowOk(s, id);
        KeepTaken(s, s', id);
      }
      forall t, u | t in s'.attempts && u in s'.attempts && t != u && s'.attempts[t].delivery == s'.attempts[u].delivery
        ensures s'.attempts[t].number != s'.attempts[u].number
      {
        if t != a.token { assert AttemptOk(s, t); }
        if u != a.token { assert AttemptOk(s, u); }
      }
    } else {
      RowStep(s, s', a.id);
    }
  }

  /** A result stored for the attempt that holds the lease and is closed with it. */
  lemma StoredKeeps(s: System, s': System, token: Token, receipt: Receipt)
    requires Invariant(s) && token in s.attempts && s.attempts[token].delivery in s.rows
    requires var held, row := s.attempts[token], s.rows[s.attempts[token].delivery];
             && held.phase == Closed && row.state == InFlight && held.number == row.attempt
             && receipt.state in {State.Accepted, State.DryRun, State.FailedRetryable, State.FailedFinal, State.Unknown}
             && (receipt.state == State.Accepted ==> held.fate == Taken)
             && (PromisesAbsence(receipt.state) ==> held.fate in {NotSent, Refused})
             && s' == s.(rows := s.rows[held.delivery := FinishRow(row, receipt, s.now)])
    ensures Invariant(s')
  {
    var held := s.attempts[token];
    var id := held.delivery;
    forall t | t in s'.attempts ensures AttemptOk(s', t) {
      assert AttemptOk(s, t);
      if t != token && s'.attempts[t].delivery == id { assert s.attempts[t].number != held.number; }
    }
    if s'.rows[id].state == State.Accepted { assert s'.attempts[token].fate == Taken; }
    forall other | other in s'.rows ensures RowOk(s', other) {
      assert RowOk(s, other);
      KeepTaken(s, s', other);
    }
  }

  lemma FinishKeeps(s: System, a: Action)
    requires Invariant(s) && a.Finish? && Enabled(s, a)
    ensures Invariant(Next(s, a))
  {
    var s' := Next(s, a);
    var held := s.attempts[a.token];
    assert AttemptOk(s, a.token) && RowOk(s, held.delivery);
    var closed := s.(attempts := s.attempts[a.token := held.(phase := Closed)]);
    AttemptStep(s, closed, a.token);
    if FinishCheck(s.rows, ClaimOf(s, a.token), a.receipt, s.now).None? {
      StoredKeeps(closed, s', a.token, a.receipt);
    } else {
      assert s' == closed;
    }
  }

  lemma AttemptActionKeeps(s: System, a: Action)
    requires Invariant(s) && Enabled(s, a)
    requires a.Dispatch? || a.PlatformTakes? || a.PlatformRefuses? || a.Conclude?
    ensures Invariant(Next(s, a))
  {
    assert AttemptOk(s, a.token);
    AttemptStep(s, Next(s, a), a.token);
  }

  lemma RowActionKeeps(s: System, a: Action)
    requires Invariant(s) && Enabled(s, a)
    requires a.Recover? || a.Acknowledge?
    ensures Invariant(Next(s, a))
  {
    var s' := Next(s, a);
    assert RowOk(s, a.id);
    KeepTaken(s, s', a.id);
    RowStep(s, s', a.id);
  }

  lemma QuietActionKeeps(s: System, a: Action)
    requires Invariant(s) && Enabled(s, a)
    requires a.Tick? || a.Create?
    ensures Invariant(Next(s, a))
  {
    var s' := Next(s, a);
    forall t | t in s'.attempts ensures AttemptOk(s', t) { assert AttemptOk(s, t); }
    forall id | id in s'.rows ensures RowOk(s', id) {
      if id in s.rows {
        assert RowOk(s, id);
        KeepTaken(s, s', id);
      }
    }
  }

  lemma StepKeeps(s: System, a: Action)
    requires Invariant(s) && Enabled(s, a)
    ensures Invariant(Next(s, a))
  {
    match a {
      case Tick(_) => QuietActionKeeps(s, a);
      case Create(_, _) => QuietActionKeeps(s, a);
      case ClaimOne(_, _, _, _, _) => ClaimKeeps(s, a);
      case Finish(_, _) => FinishKeeps(s, a);
      case Recover(_) => RowActionKeeps(s, a);
      case Acknowledge(_) => RowActionKeeps(s, a);
      case _ => AttemptActionKeeps(s, a);
    }
  }

  lemma {:induction false} RunKeeps(s: System, run: seq<Action>)
    requires Invariant(s) && Feasible(s, run)
    ensures Invariant(After(s, run))
    decreases |run|
  {
    if run != [] {
      StepKeeps(s, run[0]);
      RunKeeps(Next(s, run[0]), run[1..]);
    }
  }

  /** The attempts on one delivery whose message the platform took. */
  ghost function Acceptances(s: System, id: Id): set<Token> {
    set t | t in s.attempts && s.attempts[t].delivery == id && s.attempts[t].fate == Taken
  }

  /** Main result. In every reachable state the platform took one delivery's message at most once; an
      accepted or acknowledged row means exactly once; and while any request of the delivery may still be
      taken or was taken, the row is not in a state from which it would be sent again or called absent. */
  lemma AtMostOnce(run: seq<Action>, id: Id)
    requires Feasible(Start, run)
    ensures var s := After(Start, run);
            && |Acceptances(s, id)| <= 1
            && (id in s.rows && s.rows[id].state in {State.Accepted, Acked} ==> |Acceptances(s, id)| == 1)
            && (id in s.rows && PromisesAbsence(s.rows[id].state) ==> |Acceptances(s, id)| == 0)
            && (forall t :: t in s.attempts && s.attempts[t].delivery == id && s.attempts[t].fate in {InNetwork, Taken} ==>
                  id in s.rows && s.rows[id].state !in {Pending, State.FailedRetryable})
  {
    RunKeeps(Start, run);
    var s := After(Start, run);
    var taken := Acceptances(s, id);
    forall t | t in s.attempts && s.attempts[t].delivery == id && s.attempts[t].fate in {InNetwork, Taken}
      ensures id in s.rows && s.rows[id].state !in {Pending, State.FailedRetryable}
    {
      assert AttemptOk(s, t);
    }
    if taken != {} {
      var t :| t in taken;
      assert AttemptOk(s, t);
      forall u | u in taken ensures u == t {
        assert AttemptOk(s, u);
      }
      assert taken == {t};
    }
    if id in s.rows {
      assert RowOk(s, id);
      if TakenOnce(s, id) {
        var t :| t in s.attempts && s.attempts[t].delivery == id && s.attempts[t].fate == Taken;
        assert t in taken;
      }
    }
  }

  /** Once the message may have been taken, no continuation makes the row sendable again. */
  lemma NeverResent(run: seq<Action>, more: seq<Action>, token: Token)
    requires Feasible(Start, run) && Feasible(After(Start, run), more)
    requires token in After(Start, run).attempts && After(Start, run).attempts[token].fate == Taken
    ensures var later := After(After(Start, run), more);
            var id := After(Start, run).attempts[token].delivery;
            && id in later.rows && id in After(Start, run).rows
            && later.rows[id].state !in {Pending, State.FailedRetryable}
            && later.rows[id].attempt == After(Start, run).rows[id].attempt
  {
    RunKeeps(Start, run);
    assert AttemptOk(After(Start, run), token);
    TakenStays(After(Start, run), more, token);
  }

  lemma {:induction false} TakenStays(s: System, run: seq<Action>, token: Token)
    requires Invariant(s) && Feasible(s, run)
    requires token in s.attempts && s.attempts[token].fate == Taken
    ensures var later := After(s, run);
            && token in later.attempts && later.attempts[token].fate == Taken
            && later.attempts[token].delivery == s.attempts[token].delivery
            && s.attempts[token].delivery in later.rows && s.attempts[token].delivery in s.rows
            && later.rows[s.attempts[token].delivery].state !in {Pending, State.FailedRetryable}
            && later.rows[s.attempts[token].delivery].attempt == s.rows[s.attempts[token].delivery].attempt
    decreases |run|
  {
    assert AttemptOk(s, token);
    if run != [] {
      StepKeeps(s, run[0]);
      TakenStays(Next(s, run[0]), run[1..], token);
    }
  }

  /** Where a row can go: final states are absorbing and only acceptance is ever acknowledged. */
  predicate Follows(before: State, after: State) {
    || after == before
    || (before in {Pending, State.FailedRetryable} && after in {InFlight, State.FailedFinal})
    || (before == InFlight && after !in {Pending, Acked})
    || (before == State.Accepted && after == Acked)
  }

  lemma RowsFollow(s: System, a: Action, id: Id)
    requires Invariant(s) && Enabled(s, a) && id in s.rows
    ensures id in Next(s, a).rows
    ensures Follows(s.rows[id].state, Next(s, a).rows[id].state)
    // Only a claim or a result of the token that holds the live lease changes a leased row before expiry.
    ensures s.rows[id].state == InFlight && !Expired(s.rows[id], s.now) && Next(s, a).rows[id] != s.rows[id] ==>
              a.Finish? && s.rows[id].leaseToken == Some(a.token)
  {
    assert RowOk(s, id);
  }

  lemma {:induction false} TerminalStays(s: System, run: seq<Action>, id: Id)
    requires Invariant(s) && Feasible(s, run) && id in s.rows
    requires s.rows[id].state in {State.Unknown, State.FailedFinal, State.DryRun, Acked}
    ensures id in After(s, run).rows && After(s, run).rows[id].state == s.rows[id].state
    decreases |run|
  {
    if run != [] {
      RowsFollow(s, run[0], id);
      StepKeeps(s, run[0]);
      TerminalStays(Next(s, run[0]), run[1..], id);
    }
  }

  ghost function Claims(s: System, id: Id): set<Token> {
    set t | t in s.attempts && s.attempts[t].delivery == id
  }

  /** A delivery is claimed at most three times in any run, and a row that may still be claimed has
      attempts left. */
  lemma FinitelyManyClaims(run: seq<Action>, id: Id)
    requires Feasible(Start, run)
    ensures |Claims(After(Start, run), id)| <= MaxAttempts
    ensures id in After(Start, run).rows && After(Start, run).rows[id].state in {Pending, State.FailedRetryable} ==>
              After(Start, run).rows[id].attempt < MaxAttempts
  {
    RunKeeps(Start, run);
    var s := After(Start, run);
    if id in s.rows { assert RowOk(s, id); }
    var numbers := set t | t in Claims(s, id) :: s.attempts[t].number;
    forall t | t in Claims(s, id) ensures s.attempts[t].number in Range(MaxAttempts) {
      assert AttemptOk(s, t);
      assert RowOk(s, s.attempts[t].delivery);
    }
    SameSize(s, Claims(s, id));
    SubsetSize(numbers, Range(MaxAttempts));
  }

  lemma {:induction false} SameSize(s: System, tokens: set<Token>)
    requires Invariant(s)
    requires forall t :: t in tokens ==> t in s.attempts
    requires forall t, u :: t in tokens && u in tokens ==> s.attempts[t].delivery == s.attempts[u].delivery
    ensures |set t | t in tokens :: s.attempts[t].number| == |tokens|
  {
    if tokens != {} {
      var t :| t in tokens;
      SameSize(s, tokens - {t});
      var rest := set u | u in tokens - {t} :: s.attempts[u].number;
      assert s.attempts[t].number !in rest;
      assert (set u | u in tokens :: s.attempts[u].number) == rest + {s.attempts[t].number};
    }
  }

  /** What a worker reports of an acceptance of its own claim. */
  function AcceptedReceipt(c: Claim, messageId: string, at: Time): Receipt {
    Receipt(
      c.deliveryId, c.intent.intentId, c.intent.recipientId, c.intent.revision, c.attempt, State.Accepted,
      Some(messageId), Some(at), None)
  }

  function Reply(messageId: string): Send.Event {
    Send.Reply(200, Send.Object(Some(0), Some(messageId)))
  }

  lemma Single(s: System, a: Action)
    requires Enabled(s, a)
    ensures Feasible(s, [a]) && After(s, [a]) == Next(s, a)
  {
    assert [a][1..] == [];
  }

  lemma {:induction false} Chain(s: System, run: seq<Action>, more: seq<Action>)
    requires Feasible(s, run) && Feasible(After(s, run), more)
    ensures Feasible(s, run + more) && After(s, run + more) == After(After(s, run), more)
    decreases |run|
  {
    if run == [] {
      assert run + more == more;
    } else {
      Chain(Next(s, run[0]), run[1..], more);
      assert (run + more)[1..] == run[1..] + more;
    }
  }

  /** A due row is claimed and its message taken, with a lease of one second. */
  lemma TakenWhenDue(s: System, id: Id, token: Token)
    requires id in s.rows && token !in s.attempts && Claimable(s.rows[id], MaxAttempts, s.now) && s.rows[id].intent.channel == Feishu
    ensures var run := [ClaimOne(id, true, token, MaxAttempts, 1), Dispatch(token), PlatformTakes(token)];
            var row := ClaimRow(s.rows[id], true, token, 1, s.now);
            && Feasible(s, run)
            && After(s, run) == s.(rows := s.rows[id := row], attempts := s.attempts[token := Attempt(id, row.attempt, Holding, Taken)])
  {
    var row := ClaimRow(s.rows[id], true, token, 1, s.now);
    var claimed := s.(rows := s.rows[id := row], attempts := s.attempts[token := Attempt(id, row.attempt, Holding, NotSent)]);
    var sent := claimed.(attempts := s.attempts[token := Attempt(id, row.attempt, Holding, InNetwork)]);
    assert claimed == Next(s, ClaimOne(id, true, token, MaxAttempts, 1)) && sent == Next(claimed, Dispatch(token));
    Single(sent, PlatformTakes(token));
    var run := [ClaimOne(id, true, token, MaxAttempts, 1), Dispatch(token), PlatformTakes(token)];
    assert run[1..][1..] == [PlatformTakes(token)] && run[1..] == [Dispatch(token), PlatformTakes(token)];
    assert Feasible(claimed, run[1..]);
    assert After(sent, [PlatformTakes(token)]).attempts == s.attempts[token := Attempt(id, row.attempt, Holding, Taken)];
  }

  /** A worker that learns of the acceptance while its lease is live reports it. */
  lemma ReportedInTime(s: System, id: Id, token: Token, messageId: string)
    requires id in s.rows && s.rows[id].intent.channel == Feishu && !Fenced(s.rows[id], token, s.now)
    requires token in s.attempts && s.attempts[token] == Attempt(id, s.rows[id].attempt, Holding, Taken)
    requires 0 < |messageId| <= 160
    ensures var receipt := AcceptedReceipt(Claim(id, s.rows[id].intent, token, s.rows[id].attempt), messageId, s.now);
            var run := [Conclude(token, Send.Accepted(messageId), Reply(messageId)), Finish(token, receipt)];
            var closed := Attempt(id, s.rows[id].attempt, Closed, Taken);
            && Feasible(s, run)
            && After(s, run) == s.(rows := s.rows[id := FinishRow(s.rows[id], receipt, s.now)], attempts := s.attempts[token := closed])
  {
    var learned := s.(attempts := s.attempts[token := s.attempts[token].(phase := Concluded(Send.Accepted(messageId)))]);
    assert learned == Next(s, Conclude(token, Send.Accepted(messageId), Reply(messageId)));
    var claim := Claim(id, s.rows[id].intent, token, s.rows[id].attempt);
    assert ClaimOf(learned, token) == claim;
    var finish := Finish(token, AcceptedReceipt(claim, messageId, s.now));
    Single(learned, finish);
    assert [Conclude(token, Send.Accepted(messageId), Reply(messageId)), finish][1..] == [finish];
    assert After(learned, [finish]).attempts == s.attempts[token := Attempt(id, s.rows[id].attempt, Closed, Taken)];
  }

  lemma NothingTaken(s: System, id: Id)
    requires Invariant(s) && id in s.rows && PromisesAbsence(s.rows[id].state)
    ensures Acceptances(s, id) == {}
  {
    forall t | t in s.attempts && s.attempts[t].delivery == id ensures s.attempts[t].fate != Taken {
      assert AttemptOk(s, t);
    }
  }

  function Wait(row: Row, now: Time): nat {
    if row.nextAttemptAt.Some? && row.nextAttemptAt.value > now then row.nextAttemptAt.value - now else 0
  }

  /** At most once is not never: a row that may still be sent can always still be delivered. */
  lemma CanStillDeliver(s: System, id: Id, token: Token, messageId: string) returns (run: seq<Action>)
    requires Invariant(s) && id in s.rows && token !in s.attempts && 0 < |messageId| <= 160
    requires s.rows[id].state in {Pending, State.FailedRetryable} && s.rows[id].intent.channel == Feishu
    ensures Feasible(s, run) && id in After(s, run).rows
    ensures After(s, run).rows[id].state == State.Accepted && After(s, run).rows[id].messageId == Some(messageId)
    ensures Acceptances(After(s, run), id) == {token}
  {
    assert RowOk(s, id);
    NothingTaken(s, id);
    var due := Next(s, Tick(Wait(s.rows[id], s.now)));
    TakenWhenDue(due, id, token);
    var sending := [ClaimOne(id, true, token, MaxAttempts, 1), Dispatch(token), PlatformTakes(token)];
    var taken := After(due, sending);
    ReportedInTime(taken, id, token, messageId);
    var receipt := AcceptedReceipt(Claim(id, taken.rows[id].intent, token, taken.rows[id].attempt), messageId, taken.now);
    var reporting := [Conclude(token, Send.Accepted(messageId), Reply(messageId)), Finish(token, receipt)];
    var waiting := [Tick(Wait(s.rows[id], s.now))];
    Single(s, waiting[0]);
    Chain(due, sending, reporting);
    Chain(s, waiting, sending + reporting);
    run := waiting + (sending + reporting);
    OnlyTaken(s, After(s, run), id, token);
  }

  lemma OnlyTaken(s: System, later: System, id: Id, token: Token)
    requires Acceptances(s, id) == {} && token in later.attempts
    requires later.attempts == s.attempts[token := later.attempts[token]]
    requires later.attempts[token].delivery == id && later.attempts[token].fate == Taken
    ensures Acceptances(later, id) == {token}
  {
    assert forall t :: t in s.attempts && s.attempts[t].delivery == id ==> t !in Acceptances(s, id);
    assert token in Acceptances(later, id);
  }

  function ClaimActions(picked: seq<Id>, live: set<Id>, token: Token, maxAttempts: nat, leaseSeconds: nat): seq<Action> {
    if picked == [] then []
    else [ClaimOne(picked[0], picked[0] in live, token, maxAttempts, leaseSeconds)]
         + ClaimActions(picked[1..], live, token + 1, maxAttempts, leaseSeconds)
  }

  /** One claim transaction over many rows is a sequence of single claims, so the results above hold
      of the repository's batches. */
  lemma {:induction false} ClaimBatchIsSteps(
    s: System, picked: seq<Id>, live: set<Id>, token: Token, maxAttempts: nat, leaseSeconds: nat)
    requires Distinct(picked)
    requires forall id :: id in picked ==> id in s.rows && Claimable(s.rows[id], maxAttempts, s.now)
    requires forall t :: t in s.attempts ==> t < token
    ensures var run := ClaimActions(picked, live, token, maxAttempts, leaseSeconds);
            && Feasible(s, run)
            && After(s, run).rows == ClaimRows(s.rows, picked, live, token, leaseSeconds, s.now)
    decreases |picked|
  {
    if picked != [] {
      var a := ClaimOne(picked[0], picked[0] in live, token, maxAttempts, leaseSeconds);
      var run := ClaimActions(picked, live, token, maxAttempts, leaseSeconds);
      assert run[0] == a && run[1..] == ClaimActions(picked[1..], live, token + 1, maxAttempts, leaseSeconds);
      assert picked[0] !in picked[1..];
      ClaimBatchIsSteps(Next(s, a), picked[1..], live, token + 1, maxAttempts, leaseSeconds);
    }
  }

  /** Likewise one recovery transaction. */
  lemma {:induction false} RecoverBatchIsSteps(s: System, picked: set<Id>) returns (run: seq<Action>)
    requires forall id :: id in picked ==> id in s.rows && Expired(s.rows[id], s.now)
    ensures Feasible(s, run)
    ensures After(s, run) == s.(rows := RecoverRows(s.rows, picked, s.now))
    decreases |picked|
  {
    if picked == {} {
      run := [];
      assert RecoverRows(s.rows, picked, s.now) == s.rows;
    } else {
      var id :| id in picked;
      var next := Next(s, Recover(id));
      var rest := RecoverBatchIsSteps(next, picked - {id});
      run := [Recover(id)] + rest;
      assert run[1..] == rest;
      assert RecoverRows(next.rows, picked - {id}, s.now) == RecoverRows(s.rows, picked, s.now);
    }
  }
}
