module ReportLease {
  /** Build leases of daily reports (`reserve_report` and `commit_report` of `storage/decisions.py`). */

  import opened Common

  /** What names a report: its day, time zone and scope. */
  datatype Identity = Identity(day: int, timezone: string, scope: string)

  datatype Row = Row(revision: nat, token: Option<nat>, until: Option<Time>)

  type Rows = map<Identity, Row>

  const LeaseSeconds: nat := 90

  /** A fresh token for a report that is not stored and not being built. */
  function Reserve(rows: Rows, id: Identity, unused: nat, now: Time): Option<Rows> {
    if id in rows && (rows[id].revision > 0 || (rows[id].until.Some? && rows[id].until.value > now)) then None
    else Some(rows[id := Row(0, Some(unused), Some(now + LeaseSeconds))])
  }

  predicate Holds(rows: Rows, id: Identity, token: nat, now: Time) {
    && id in rows && rows[id].token == Some(token) && rows[id].until.Some? && rows[id].until.value > now && rows[id].revision == 0
  }

  /** `accepted`: the report fits its row, its evidence is valid and its notifications were not rejected. */
  function Commit(rows: Rows, id: Identity, token: nat, accepted: bool, now: Time): Result<Rows> {
    if !Holds(rows, id, token, now) then Err(RevisionMismatch)
    else if !accepted then Err(InvalidOutput)
    else Ok(rows[id := Row(1, None, None)])
  }

  /** `commits` counts the successful commits of each identity. */
  datatype System = System(rows: Rows, nextToken: nat, now: Time, commits: map<Identity, nat>)

  datatype Action =
    | ReserveReport(id: Identity)
    | CommitReport(id: Identity, token: nat, accepted: bool)
    | Tick(later: Time)

  predicate Enabled(s: System, a: Action) { a.Tick? ==> a.later >= s.now }

  function Count(m: map<Identity, nat>, id: Identity): nat { if id in m then m[id] else 0 }

  function Next(s: System, a: Action): System {
    match a
    case ReserveReport(id) =>
      var rows := Reserve(s.rows, id, s.nextToken, s.now);
      if rows.None? then s else s.(rows := rows.value, nextToken := s.nextToken + 1)
    case CommitReport(id, token, accepted) =>
      var rows := Commit(s.rows, id, token, accepted, s.now);
      if rows.Err? then s else s.(rows := rows.value, commits := s.commits[id := Count(s.commits, id) + 1])
    case Tick(later) => s.(now := later)
  }

  predicate Feasible(s: System, run: seq<Action>)
    decreases |run|
  {
    run == [] || (Enabled(s, run[0]) && Feasible(Next(s, run[0]), run[1..]))
  }

  function After(s: System, run: seq<Action>): System
    decreases |run|
  {
    if run == [] then s else After(Next(s, run[0]), run[1..])
  }

  const Start := System(map[], 0, 0, map[])

  predicate RowOk(s: System, id: Identity) {
    if id in s.rows then
      && Count(s.commits, id) == s.rows[id].revision <= 1
      && (s.rows[id].token.Some? ==> s.rows[id].token.value < s.nextToken)
    else Count(s.commits, id) == 0
  }

  ghost predicate Invariant(s: System) {
    && (forall id :: RowOk(s, id))
    && forall a, b :: a in s.rows && b in s.rows && a != b && s.rows[a].token.Some? ==> s.rows[a].token != s.rows[b].token
  }

  lemma StepKeeps(s: System, a: Action)
    requires Invariant(s)
    ensures Invariant(Next(s, a))
  {
    var s' := Next(s, a);
    forall id ensures RowOk(s', id) { assert RowOk(s, id); }
    forall x, y | x in s'.rows && y in s'.rows && x != y && s'.rows[x].token.Some? ensures s'.rows[x].token != s'.rows[y].token {
      assert RowOk(s, x) && RowOk(s, y);
    }
  }

  lemma {:induction false} RunKeeps(s: System, run: seq<Action>)
    requires Invariant(s)
    ensures Invariant(After(s, run))
    decreases |run|
  {
    if run != [] {
      StepKeeps(s, run[0]);
      RunKeeps(Next(s, run[0]), run[1..]);
    }
  }

  /** Each report identity is committed at most once, over every run of any builders. */
  lemma CommittedAtMostOnce(run: seq<Action>, id: Identity)
    ensures Count(After(Start, run).commits, id) <= 1
  {
    RunKeeps(Start, run);
    assert RowOk(After(Start, run), id);
  }

  /** While a lease is live, one token alone can commit, and nobody else gets one. */
  lemma OneBuilder(run: seq<Action>, id: Identity, token: nat, other: nat)
    requires var s := After(Start, run); Holds(s.rows, id, token, s.now)
    ensures var s := After(Start, run);
            && Reserve(s.rows, id, s.nextToken, s.now).None?
            && (Commit(s.rows, id, other, true, s.now).Ok? <==> other == token)
            && forall id' :: Holds(s.rows, id', token, s.now) ==> id' == id
  {
    RunKeeps(Start, run);
  }

  /** A token that was issued and does not hold now never holds again, and changes nothing. */
  lemma {:induction false} StaleForever(s: System, run: seq<Action>, id: Identity, token: nat)
    requires Invariant(s) && Feasible(s, run) && token < s.nextToken && !Holds(s.rows, id, token, s.now)
    ensures !Holds(After(s, run).rows, id, token, After(s, run).now)
    ensures forall accepted :: Next(After(s, run), CommitReport(id, token, accepted)) == After(s, run)
    decreases |run|
  {
    if run != [] {
      StepKeeps(s, run[0]);
      assert RowOk(s, id);
      StaleForever(Next(s, run[0]), run[1..], id, token);
    }
  }

  class ReportRepository {
    var rows: Rows
    var nextToken: nat
    var clock: Time

    constructor (now: Time)
      ensures rows == map[] && nextToken == 0 && clock == now
    {
      rows, nextToken, clock := map[], 0, now;
    }

    /** `reserve_report`. */
    method ReserveReport(id: Identity) returns (token: Option<nat>)
      modifies this`rows, this`nextToken
      ensures token.Some? <==> Reserve(old(rows), id, old(nextToken), clock).Some?
      ensures token.Some? ==> Some(rows) == Reserve(old(rows), id, old(nextToken), clock) && token == Some(old(nextToken))
      ensures token.Some? ==> nextToken == old(nextToken) + 1 && Holds(rows, id, token.value, clock)
      ensures token.None? ==> rows == old(rows) && nextToken == old(nextToken)
    {
      if id in rows {
        if rows[id].revision > 0 {
          return None;
        }
        if rows[id].until.Some? && rows[id].until.value > clock {
          return None;
        }
      }
      var row := if id in rows then rows[id] else Row(0, None, None);
      row := row.(token := Some(nextToken));
      row := row.(until := Some(clock + LeaseSeconds));
      rows := rows[id := row];
      nextToken := nextToken + 1;
      token := row.token;
    }

    /** `commit_report`. */
    method CommitReport(id: Identity, token: nat, accepted: bool) returns (res: Result<()>)
      modifies this`rows
      ensures res.Ok? <==> Commit(old(rows), id, token, accepted, clock).Ok?
      ensures if res.Ok? then Ok(rows) == Commit(old(rows), id, token, accepted, clock)
              else rows == old(rows) && Commit(old(rows), id, token, accepted, clock) == Err(res.code)
    {
      if id !in rows {
        return Err(RevisionMismatch);
      }
      var row := rows[id];
      if row.token != Some(token) || row.until.None? || row.until.value <= clock || row.revision != 0 {
        return Err(RevisionMismatch);
      }
      if !accepted {
        return Err(InvalidOutput);
      }
      row := row.(revision := 1);
      rows := rows[id := row.(token := None, until := None)];
      res := Ok(());
    }
  }
}
