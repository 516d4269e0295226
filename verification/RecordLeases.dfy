module RecordLeases {
  /** Processing leases of source records (`storage/ingestion.py`). */

  import opened Common
  import opened Contracts

  datatype Phase = Pending | Processing | Done | Failed | Quarantined

  type Token = nat

  datatype Row = Row(
    phase: Phase, attempt: int, leaseToken: Option<Token>, leaseUntil: Option<Time>, nextAttemptAt: Option<Time>, size: nat)

  datatype Claim = Claim(key: RecordKey, token: Token, attempt: int)

  type Rows = map<RecordKey, Row>

  function Delay(attempt: int): nat { if attempt < 0 then 1 else Pow2(attempt) }

  /** `_insert_record`. */
  function NewRow(quarantined: bool, size: nat): Row { Row(if quarantined then Quarantined else Pending, 0, None, None, None, size) }

  predicate Claimable(row: Row, now: Time) {
    row.phase == Pending && row.attempt < 3 && (row.nextAttemptAt.Some? ==> row.nextAttemptAt.value <= now)
  }

  function ClaimedRow(row: Row, token: Token, until: Time): Row {
    row.(phase := Processing, attempt := row.attempt + 1, leaseToken := Some(token), leaseUntil := Some(until))
  }

  const MaxCharacters: nat := 100_000

  /** The selected rows in order, until one more would pass the character bound; tokens are fresh. */
  function ClaimRows(rows: Rows, picked: seq<RecordKey>, characters: nat, token: Token, until: Time): (Rows, seq<Claim>)
    requires forall k :: k in picked ==> k in rows
    decreases |picked|
  {
    if picked == [] || characters + rows[picked[0]].size > MaxCharacters then (rows, [])
    else
      var row := ClaimedRow(rows[picked[0]], token, until);
      var rest := ClaimRows(rows[picked[0] := row], picked[1..], characters + row.size, token + 1, until);
      (rest.0, [Claim(picked[0], token, row.attempt)] + rest.1)
  }

  /** One turn of the claiming loop, continuing after `claims`. */
  lemma ClaimOneMore(rows: Rows, picked: seq<RecordKey>, i: nat, characters: nat, token: Token, until: Time, claims: seq<Claim>)
    requires i < |picked| && (forall k :: k in picked ==> k in rows) && characters + rows[picked[i]].size <= MaxCharacters
    ensures var row := ClaimedRow(rows[picked[i]], token, until);
            var before := ClaimRows(rows, picked[i..], characters, token, until);
            var after := ClaimRows(rows[picked[i] := row], picked[i + 1..], characters + row.size, token + 1, until);
            before.0 == after.0 && claims + before.1 == claims + [Claim(picked[i], token, row.attempt)] + after.1
  {
    assert picked[i..][0] == picked[i] && picked[i..][1..] == picked[i + 1..];
  }

  /** What `lock_claims` checks of one claim. */
  predicate Live(rows: Rows, c: Claim, now: Time) {
    && c.key in rows && rows[c.key].phase == Processing
    && rows[c.key].leaseToken == Some(c.token)
    && rows[c.key].leaseUntil.Some? && rows[c.key].leaseUntil.value > now
  }

  predicate AllLive(rows: Rows, claims: seq<Claim>, now: Time) { forall i :: 0 <= i < |claims| ==> Live(rows, claims[i], now) }

  /** A batch of claims names each row once. */
  predicate OneEach(claims: seq<Claim>) { forall i, j :: 0 <= i < j < |claims| ==> claims[i].key != claims[j].key }

  /** How a finished batch ends. */
  datatype Outcome = Processed | Rejected(retryable: bool) | OverBudget

  function Midnight(now: Time): Time { (now / 86400 + 1) * 86400 }

  function EndedRow(row: Row, o: Outcome, now: Time): Row {
    var freed := row.(leaseToken := None, leaseUntil := None);
    match o
    case Processed => freed.(phase := Done)
    case Rejected(retryable) =>
      freed.(phase := if retryable && row.attempt < 3 then Pending else Failed, nextAttemptAt := Some(now + Delay(row.attempt)))
    case OverBudget => freed.(phase := Pending, attempt := row.attempt - 1, nextAttemptAt := Some(Midnight(now)))
  }

  function EndRows(rows: Rows, claims: seq<Claim>, o: Outcome, now: Time): Rows
    decreases |claims|
  {
    if claims == [] then rows
    else if claims[0].key !in rows then EndRows(rows, claims[1..], o, now)
    else EndRows(rows[claims[0].key := EndedRow(rows[claims[0].key], o, now)], claims[1..], o, now)
  }

  function End(rows: Rows, claims: seq<Claim>, o: Outcome, now: Time): Result<Rows> {
    if !AllLive(rows, claims, now) then Err(RevisionMismatch) else Ok(EndRows(rows, claims, o, now))
  }

  predicate Expired(row: Row, now: Time) { row.phase == Processing && row.leaseUntil.Some? && row.leaseUntil.value <= now }

  function RecoveredRow(row: Row): Row {
    row.(phase := if row.attempt < 3 then Pending else Failed, leaseToken := None, leaseUntil := None)
  }

  function RecoverRows(rows: Rows, picked: set<RecordKey>, now: Time): Rows {
    map k | k in rows :: if k in picked && Expired(rows[k], now) then RecoveredRow(rows[k]) else rows[k]
  }

  lemma RecoverOneMore(rows: Rows, picked: seq<RecordKey>, n: nat, now: Time)
    requires n < |picked| && picked[n] in rows && Expired(rows[picked[n]], now) && picked[n] !in picked[..n]
    ensures var before, after := RecoverRows(rows, ToSet(picked[..n]), now), RecoverRows(rows, ToSet(picked[..n + 1]), now);
            picked[n] in before && before[picked[n]] == rows[picked[n]] && after == before[picked[n] := RecoveredRow(rows[picked[n]])]
  {
    assert ToSet(picked[..n + 1]) == ToSet(picked[..n]) + {picked[n]};
  }

  lemma {:induction false} EndRowsAt(rows: Rows, claims: seq<Claim>, o: Outcome, now: Time, k: RecordKey)
    requires OneEach(claims) && forall c :: c in claims ==> c.key in rows
    ensures EndRows(rows, claims, o, now).Keys == rows.Keys
    ensures k in rows ==>
              EndRows(rows, claims, o, now)[k]
                == if exists c :: c in claims && c.key == k then EndedRow(rows[k], o, now) else rows[k]
    decreases |claims|
  {
    if claims != [] {
      var c, rest := claims[0], claims[1..];
      assert forall d :: d in claims <==> d == c || d in rest;
      forall d | d in rest ensures d.key != c.key {
        var i :| 0 <= i < |rest| && rest[i] == d;
        assert claims[i + 1] == d;
      }
      EndRowsAt(rows[c.key := EndedRow(rows[c.key], o, now)], rest, o, now, k);
    }
  }

  /** The batch's `i`-th claim is the row's. */
  predicate Took(claims: seq<Claim>, i: nat, before: Row, after: Row, k: RecordKey, until: Time) {
    i < |claims| && claims[i].key == k && after == ClaimedRow(before, claims[i].token, until)
  }

  predicate TookOne(claims: seq<Claim>, before: Row, after: Row, k: RecordKey, until: Time) {
    exists i: nat :: i < |claims| && Took(claims, i, before, after, k, until)
  }

  lemma {:induction false} ClaimRowsAt(rows: Rows, picked: seq<RecordKey>, characters: nat, token: Token, until: Time, k: RecordKey)
    requires Distinct(picked) && forall p :: p in picked ==> p in rows
    ensures var (after, claims) := ClaimRows(rows, picked, characters, token, until);
            && after.Keys == rows.Keys && |claims| <= |picked|
            && (forall i :: 0 <= i < |claims| ==> claims[i] == Claim(picked[i], token + i, rows[picked[i]].attempt + 1))
            && (k in rows ==>
                  (after[k] == rows[k] && (forall i :: 0 <= i < |claims| ==> claims[i].key != k))
                  || TookOne(claims, rows[k], after[k], k, until))
    decreases |picked|
  {
    if picked != [] && characters + rows[picked[0]].size <= MaxCharacters {
      var p := picked[0];
      var row := ClaimedRow(rows[p], token, until);
      var next := rows[p := row];
      forall i | 0 <= i < |picked| - 1 ensures picked[1..][i] != p { assert picked[i + 1] != picked[0]; }
      ClaimRowsAt(next, picked[1..], characters + row.size, token + 1, until, k);
      var (after, claims) := ClaimRows(rows, picked, characters, token, until);
      var (_, rest) := ClaimRows(next, picked[1..], characters + row.size, token + 1, until);
      assert claims == [Claim(p, token, row.attempt)] + rest;
      if k in rows {
        if k == p {
          assert forall i :: 0 <= i < |rest| ==> rest[i].key == picked[1..][i];
          assert Took(claims, 0, rows[k], after[k], k, until);
        } else if i: nat :| Took(rest, i, next[k], after[k], k, until) {
          assert Took(claims, i + 1, rows[k], after[k], k, until);
        }
      }
    }
  }

  // ---- runs of any workers ----

  /** `claims` and `deferrals` count, per row, how often it was claimed and how often deferred for budget. */
  datatype System = System(rows: Rows, nextToken: Token, now: Time, claims: map<RecordKey, nat>, deferrals: map<RecordKey, nat>)

  datatype Action =
    | Insert(key: RecordKey, quarantined: bool, size: nat)
    | ClaimBatch(picked: seq<RecordKey>, leaseSeconds: nat)
    | EndBatch(batch: seq<Claim>, outcome: Outcome)
    | Recover(expired: set<RecordKey>)
    | Tick(later: Time)

  /** Any worker may do any of these at any time, with any claims it ever got; a batch names each row once. */
  predicate Enabled(s: System, a: Action) {
    match a
    case Insert(k, _, _) => k !in s.rows
    case ClaimBatch(picked, _) => Distinct(picked) && forall k :: k in picked ==> k in s.rows && Claimable(s.rows[k], s.now)
    case EndBatch(batch, _) => OneEach(batch)
    case Recover(_) => true
    case Tick(later) => later >= s.now
  }

  function Count(m: map<RecordKey, nat>, k: RecordKey): nat { if k in m then m[k] else 0 }

  function Tally(m: map<RecordKey, nat>, claims: seq<Claim>): map<RecordKey, nat>
    decreases |claims|
  {
    if claims == [] then m else Tally(m[claims[0].key := Count(m, claims[0].key) + 1], claims[1..])
  }

  function Next(s: System, a: Action): System
    requires Enabled(s, a)
  {
    match a
    case Insert(k, quarantined, size) => s.(rows := s.rows[k := NewRow(quarantined, size)])
    case ClaimBatch(picked, lease) =>
      var (rows, claims) := ClaimRows(s.rows, picked, 0, s.nextToken, s.now + lease);
      s.(rows := rows, nextToken := s.nextToken + |claims|, claims := Tally(s.claims, claims))
    case EndBatch(batch, o) =>
      var rows := End(s.rows, batch, o, s.now);
      if rows.Err? then s
      else s.(rows := rows.value, deferrals := if o.OverBudget? then Tally(s.deferrals, batch) else s.deferrals)
    case Recover(expired) => s.(rows := RecoverRows(s.rows, expired, s.now))
    case Tick(later) => s.(now := later)
  }

  predicate Feasible(s: System, run: seq<Action>)
    decreases |run|
  {
    run == [] || (Enabled(s, run[0]) && Feasible(Next(s, run[0]), run[1..]))
  }

  function After(s: System, run: seq<Action>): System
    requires Feasible(s, run)
    decreases |run|
  {
    if run == [] then s else After(Next(s, run[0]), run[1..])
  }

  const Start := System(map[], 0, 0, map[], map[])

  predicate RowOk(s: System, k: RecordKey)
    requires k in s.rows
  {
    var row := s.rows[k];
    && row.attempt == Count(s.claims, k) - Count(s.deferrals, k)
    && 0 <= row.attempt <= 3
    && (row.phase == Pending ==> row.attempt < 3)
    && (row.phase == Processing ==> row.attempt >= 1)
    && (row.phase == Processing <==> row.leaseToken.Some?) && (row.leaseToken.Some? <==> row.leaseUntil.Some?)
    && (row.leaseToken.Some? ==> row.leaseToken.value < s.nextToken)
  }

  ghost predicate Invariant(s: System) {
    && (forall k :: k in s.rows ==> RowOk(s, k))
    && (forall k :: k !in s.rows ==> Count(s.claims, k) == 0 && Count(s.deferrals, k) == 0)
    && (forall j, k :: j in s.rows && k in s.rows && j != k && s.rows[j].leaseToken.Some? ==>
          s.rows[j].leaseToken != s.rows[k].leaseToken)
  }

  lemma {:induction false} TallyAt(m: map<RecordKey, nat>, claims: seq<Claim>, k: RecordKey)
    requires OneEach(claims)
    ensures Count(Tally(m, claims), k) == Count(m, k) + if exists c :: c in claims && c.key == k then 1 else 0
    decreases |claims|
  {
    if claims != [] {
      var c, rest := claims[0], claims[1..];
      TallyAt(m[c.key := Count(m, c.key) + 1], rest, k);
      assert forall d :: d in claims <==> d == c || d in rest;
      forall d | d in rest ensures d.key != c.key {
        var i :| 0 <= i < |rest| && rest[i] == d;
        assert claims[i + 1] == d;
      }
    }
  }

  lemma LiveKeys(rows: Rows, batch: seq<Claim>, now: Time)
    requires AllLive(rows, batch, now)
    ensures forall c :: c in batch ==> c.key in rows && rows[c.key].phase == Processing
  {
    forall c | c in batch ensures c.key in rows && rows[c.key].phase == Processing {
      var i :| 0 <= i < |batch| && batch[i] == c;
      assert Live(rows, batch[i], now);
    }
  }

  lemma EndStep(s: System, batch: seq<Claim>, o: Outcome, k: RecordKey)
    requires Invariant(s) && OneEach(batch) && AllLive(s.rows, batch, s.now)
    ensures var s' := Next(s, EndBatch(batch, o));
            if k in s.rows then
              k in s'.rows && RowOk(s', k)
              && (s'.rows[k] == s.rows[k] || (s.rows[k].phase == Processing && s'.rows[k] == EndedRow(s.rows[k], o, s.now)))
            else k !in s'.rows && Count(s'.deferrals, k) == 0
  {
    LiveKeys(s.rows, batch, s.now);
    EndRowsAt(s.rows, batch, o, s.now, k);
    TallyAt(s.deferrals, batch, k);
  }

  lemma EndKeeps(s: System, batch: seq<Claim>, o: Outcome)
    requires Invariant(s) && OneEach(batch)
    ensures Invariant(Next(s, EndBatch(batch, o)))
  {
    var s' := Next(s, EndBatch(batch, o));
    if AllLive(s.rows, batch, s.now) {
      forall k | k in s'.rows ensures RowOk(s', k) { EndStep(s, batch, o, k); }
      forall k | k !in s'.rows ensures Count(s'.claims, k) == 0 && Count(s'.deferrals, k) == 0 { EndStep(s, batch, o, k); }
      forall j, k | j in s'.rows && k in s'.rows && j != k && s'.rows[j].leaseToken.Some?
        ensures s'.rows[j].leaseToken != s'.rows[k].leaseToken
      {
        EndStep(s, batch, o, j);
        EndStep(s, batch, o, k);
      }
    }
  }

  lemma TookIn(claims: seq<Claim>, before: Row, after: Row, k: RecordKey, until: Time)
    requires TookOne(claims, before, after, k, until)
    ensures exists c :: c in claims && c.key == k && after == ClaimedRow(before, c.token, until)
  {
    var i: nat :| i < |claims| && Took(claims, i, before, after, k, until);
    assert claims[i] in claims;
  }

  lemma ClaimsOneEach(s: System, picked: seq<RecordKey>, until: Time, claims: seq<Claim>)
    requires Enabled(s, ClaimBatch(picked, 0)) && claims == ClaimRows(s.rows, picked, 0, s.nextToken, until).1
    ensures |claims| <= |picked| && OneEach(claims)
    ensures forall c :: c in claims ==> c.key in s.rows && Claimable(s.rows[c.key], s.now)
  {
    if picked != [] { ClaimRowsAt(s.rows, picked, 0, s.nextToken, until, picked[0]); }
    forall c | c in claims ensures c.key in s.rows && Claimable(s.rows[c.key], s.now) {
      var i :| 0 <= i < |claims| && claims[i] == c;
      assert picked[i] in picked;
    }
  }

  /** A row after a claim: as it was, or holding one of the batch's fresh tokens. */
  lemma ClaimStep(s: System, picked: seq<RecordKey>, lease: nat, claims: seq<Claim>, k: RecordKey)
    requires Invariant(s) && Enabled(s, ClaimBatch(picked, lease))
    requires claims == ClaimRows(s.rows, picked, 0, s.nextToken, s.now + lease).1
    ensures var s' := Next(s, ClaimBatch(picked, lease));
            if k in s.rows then
              && k in s'.rows && RowOk(s', k)
              && (s'.rows[k] == s.rows[k]
                  || (Claimable(s.rows[k], s.now)
                      && TookOne(claims, s.rows[k], s'.rows[k], k, s.now + lease)))
            else k !in s'.rows && Count(s'.claims, k) == 0
    ensures forall i :: 0 <= i < |claims| ==> claims[i].token == s.nextToken + i
  {
    var s' := Next(s, ClaimBatch(picked, lease));
    ClaimsOneEach(s, picked, s.now + lease, claims);
    ClaimRowsAt(s.rows, picked, 0, s.nextToken, s.now + lease, k);
    TallyAt(s.claims, claims, k);
    if k in s.rows && s'.rows[k] != s.rows[k] {
      TookIn(claims, s.rows[k], s'.rows[k], k, s.now + lease);
    }
  }

  lemma ClaimKeeps(s: System, picked: seq<RecordKey>, lease: nat)
    requires Invariant(s) && Enabled(s, ClaimBatch(picked, lease))
    ensures Invariant(Next(s, ClaimBatch(picked, lease)))
  {
    var s' := Next(s, ClaimBatch(picked, lease));
    var claims := ClaimRows(s.rows, picked, 0, s.nextToken, s.now + lease).1;
    forall k | k in s'.rows ensures RowOk(s', k) { ClaimStep(s, picked, lease, claims, k); }
    forall k | k !in s'.rows ensures Count(s'.claims, k) == 0 && Count(s'.deferrals, k) == 0 { ClaimStep(s, picked, lease, claims, k); }
    forall j, k | j in s'.rows && k in s'.rows && j != k && s'.rows[j].leaseToken.Some?
      ensures s'.rows[j].leaseToken != s'.rows[k].leaseToken
    {
      ClaimStep(s, picked, lease, claims, j);
      ClaimStep(s, picked, lease, claims, k);
    }
  }

  lemma StepKeeps(s: System, a: Action)
    requires Invariant(s) && Enabled(s, a)
    ensures Invariant(Next(s, a))
  {
    match a {
      case ClaimBatch(picked, lease) => ClaimKeeps(s, picked, lease);
      case EndBatch(batch, o) => EndKeeps(s, batch, o);
      case _ =>
        var s' := Next(s, a);
        forall k | k in s'.rows ensures RowOk(s', k) { if k in s.rows { assert RowOk(s, k); } }
    }
  }

  lemma {:induction false} RunKeeps(s: System, run: seq<Action>)
    requires Invariant(s) && Feasible(s, run)
    ensures Invariant(After(s, run))
    decreases |run|
  {
    if run != [] {
      StepKeeps(s, run[0]);
      RunKeeps(Next(s, run[0]), run[1..]);
    }
  }

  // ---- main results ----

  /** In every reachable state: attempts are claims minus deferrals and never more than 3, a pending row has attempts
      left, and a row is claimed at most 3 times apart from budget deferrals. */
  lemma AttemptsBounded(run: seq<Action>, k: RecordKey)
    requires Feasible(Start, run) && k in After(Start, run).rows
    ensures var s := After(Start, run);
            && s.rows[k].attempt == Count(s.claims, k) - Count(s.deferrals, k)
            && 0 <= s.rows[k].attempt <= 3 && (s.rows[k].phase == Pending ==> s.rows[k].attempt < 3)
            && Count(s.claims, k) <= 3 + Count(s.deferrals, k)
  {
    RunKeeps(Start, run);
    assert RowOk(After(Start, run), k);
  }

  /** A live lease has one holder: two live claims share a token exactly when they are for the same row. */
  lemma OneHolder(run: seq<Action>, c: Claim, d: Claim)
    requires Feasible(Start, run)
    requires var s := After(Start, run); Live(s.rows, c, s.now) && Live(s.rows, d, s.now)
    ensures c.key == d.key <==> c.token == d.token
  {
    RunKeeps(Start, run);
  }

  /** Where a lease token comes from in one step: the row's own, or a fresh one. */
  lemma TokenStep(s: System, a: Action, k: RecordKey)
    requires Invariant(s) && Enabled(s, a) && k in Next(s, a).rows && Next(s, a).rows[k].leaseToken.Some?
    ensures var row := Next(s, a).rows[k];
            || row.leaseToken.value >= s.nextToken
            || (k in s.rows && row.leaseToken == s.rows[k].leaseToken && row.leaseUntil == s.rows[k].leaseUntil)
    ensures Next(s, a).nextToken >= s.nextToken && Next(s, a).now >= s.now
  {
    match a {
      case ClaimBatch(picked, lease) =>
        ClaimStep(s, picked, lease, ClaimRows(s.rows, picked, 0, s.nextToken, s.now + lease).1, k);
      case EndBatch(batch, o) => if AllLive(s.rows, batch, s.now) { EndStep(s, batch, o, k); }
      case _ =>
    }
  }

  /** A claim whose token was issued and that is not live now never becomes live again. */
  lemma {:induction false} StaleForever(s: System, run: seq<Action>, c: Claim)
    requires Invariant(s) && Feasible(s, run) && c.token < s.nextToken && !Live(s.rows, c, s.now)
    ensures var s' := After(s, run); !Live(s'.rows, c, s'.now)
    decreases |run|
  {
    if run != [] {
      var s' := Next(s, run[0]);
      StepKeeps(s, run[0]);
      if Live(s'.rows, c, s'.now) { TokenStep(s, run[0], c.key); assert false; }
      TokenGrows(s, run[0]);
      StaleForever(s', run[1..], c);
    }
  }

  lemma TokenGrows(s: System, a: Action)
    requires Enabled(s, a)
    ensures Next(s, a).nextToken >= s.nextToken
  {
  }

  /** With one stale claim in a batch, nothing changes at all. */
  lemma StaleChangesNothing(s: System, batch: seq<Claim>, o: Outcome, c: Claim)
    requires OneEach(batch) && c in batch && !Live(s.rows, c, s.now)
    ensures Next(s, EndBatch(batch, o)) == s
  {
    var i :| 0 <= i < |batch| && batch[i] == c;
    assert !AllLive(s.rows, batch, s.now);
  }

  predicate Terminal(p: Phase) { p == Done || p == Failed || p == Quarantined }

  lemma TerminalStep(s: System, a: Action, k: RecordKey)
    requires Invariant(s) && Enabled(s, a) && k in s.rows && Terminal(s.rows[k].phase)
    ensures k in Next(s, a).rows && Next(s, a).rows[k] == s.rows[k]
  {
    match a {
      case ClaimBatch(picked, lease) =>
        ClaimStep(s, picked, lease, ClaimRows(s.rows, picked, 0, s.nextToken, s.now + lease).1, k);
      case EndBatch(batch, o) => if AllLive(s.rows, batch, s.now) { EndStep(s, batch, o, k); }
      case _ =>
    }
  }

  /** Done, failed and quarantined rows are never touched again. */
  lemma {:induction false} TerminalStays(s: System, run: seq<Action>, k: RecordKey)
    requires Invariant(s) && Feasible(s, run) && k in s.rows && Terminal(s.rows[k].phase)
    ensures k in After(s, run).rows && After(s, run).rows[k] == s.rows[k]
    decreases |run|
  {
    if run != [] {
      StepKeeps(s, run[0]);
      TerminalStep(s, run[0], k);
      TerminalStays(Next(s, run[0]), run[1..], k);
    }
  }

  // ---- the repository ----

  class RecordRepository {
    var rows: Rows
    var nextToken: Token
    var clock: Time

    constructor (now: Time)
      ensures rows == map[] && nextToken == 0 && clock == now
    {
      rows, nextToken, clock := map[], 0, now;
    }

    /** `claim_records` over the rows its query selected. */
    method ClaimRecords(picked: seq<RecordKey>, leaseSeconds: nat) returns (claims: seq<Claim>)
      requires Distinct(picked) && forall k :: k in picked ==> k in rows && Claimable(rows[k], clock)
      modifies this`rows, this`nextToken
      ensures var spec := ClaimRows(old(rows), picked, 0, old(nextToken), clock + leaseSeconds);
              rows == spec.0 && claims == spec.1
      ensures nextToken == old(nextToken) + |claims|
    {
      claims := [];
      var characters: nat, i: nat := 0, 0;
      ghost var spec := ClaimRows(rows, picked, 0, nextToken, clock + leaseSeconds);
      while i < |picked|
        invariant i <= |picked| && |claims| == i && nextToken == old(nextToken) + i
        invariant rows.Keys == old(rows).Keys && forall k :: k in picked ==> k in rows
        invariant var rest := ClaimRows(rows, picked[i..], characters, nextToken, clock + leaseSeconds);
                  spec.0 == rest.0 && spec.1 == claims + rest.1
      {
        var row := rows[picked[i]];
        if characters + row.size > MaxCharacters {
          break;
        }
        ClaimOneMore(rows, picked, i, characters, nextToken, clock + leaseSeconds, claims);
        characters := characters + row.size;
        row := row.(phase := Processing, attempt := row.attempt + 1, leaseToken := Some(nextToken),
                    leaseUntil := Some(clock + leaseSeconds));
        rows := rows[picked[i] := row];
        claims := claims + [Claim(picked[i], nextToken, row.attempt)];
        nextToken := nextToken + 1;
        i := i + 1;
      }
    }

    /** `lock_claims`. */
    method LockClaims(claims: seq<Claim>) returns (ok: bool)
      ensures ok <==> AllLive(rows, claims, clock)
    {
      for i := 0 to |claims|
        invariant forall k :: 0 <= k < i ==> Live(rows, claims[k], clock)
      {
        var claim := claims[i];
        if claim.key !in rows {
          return false;
        }
        var row := rows[claim.key];
        if row.phase != Processing || row.leaseToken != Some(claim.token) || row.leaseUntil.None? || row.leaseUntil.value <= clock {
          return false;
        }
      }
      ok := true;
    }

    /** The loops of `fail_records`, `defer_records_for_budget` and the end of `commit_assessments`. */
    method EndRecords(claims: seq<Claim>, o: Outcome) returns (res: Result<()>)
      modifies this`rows
      ensures res.Ok? <==> AllLive(old(rows), claims, clock)
      ensures if res.Ok? then Ok(rows) == End(old(rows), claims, o, clock) else rows == old(rows) && res.code == RevisionMismatch
    {
      var locked := LockClaims(claims);
      if !locked {
        return Err(RevisionMismatch);
      }
      var i := 0;
      while i < |claims|
        invariant i <= |claims| && rows.Keys == old(rows).Keys
        invariant EndRows(old(rows), claims, o, clock) == EndRows(rows, claims[i..], o, clock)
      {
        assert Live(old(rows), claims[i], clock);
        assert claims[i..][0] == claims[i] && claims[i..][1..] == claims[i + 1..];
        var row := rows[claims[i].key];
        match o {
          case Processed => row := row.(phase := Done);
          case Rejected(retryable) =>
            row := row.(nextAttemptAt := Some(clock + Delay(row.attempt)));
            row := row.(phase := if retryable && row.attempt < 3 then Pending else Failed);
          case OverBudget =>
            row := row.(phase := Pending, attempt := row.attempt - 1, nextAttemptAt := Some(Midnight(clock)));
        }
        rows := rows[claims[i].key := row.(leaseToken := None, leaseUntil := None)];
        i := i + 1;
      }
      res := Ok(());
    }

    /** `recover_records` over the rows its query selected. */
    method RecoverRecords(picked: seq<RecordKey>) returns (count: nat)
      requires Distinct(picked) && forall k :: k in picked ==> k in rows && Expired(rows[k], clock)
      modifies this`rows
      ensures rows == RecoverRows(old(rows), ToSet(picked), clock) && count == |picked|
    {
      count := 0;
      while count < |picked|
        invariant count <= |picked|
        invariant rows == RecoverRows(old(rows), ToSet(picked[..count]), clock)
      {
        var key := picked[count];
        assert key !in picked[..count];
        RecoverOneMore(old(rows), picked, count, clock);
        rows := rows[key := RecoveredRow(rows[key])];
        count := count + 1;
      }
      assert picked[..|picked|] == picked;
    }
  }
}
