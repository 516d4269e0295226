module DeliveryOutbox {
  /** The delivery table of `storage/delivery.py`: claims, fenced results, recovery and acknowledgement. */

  import opened Common

  datatype State = Pending | InFlight | Accepted | Acked | FailedRetryable | FailedFinal | Unknown | DryRun

  type Id = string
  type Token = nat

  datatype Channel = DryRunChannel | Feishu
  datatype SubjectType = Event | Report | Exercise | Status

  datatype Intent = Intent(
    intentId: Id, subjectType: SubjectType, subjectId: Id, revision: nat, recipientId: Id, channel: Channel)

  datatype Row = Row(
    intent: Intent,
    state: State,
    attempt: nat,
    leaseToken: Option<Token>,
    leaseUntil: Option<Time>,
    nextAttemptAt: Option<Time>,
    messageId: Option<string>,
    acceptedAt: Option<Time>,
    updatedAt: Time,
    error: Option<string>)

  datatype Claim = Claim(deliveryId: Id, intent: Intent, token: Token, attempt: nat)

  /** The `Delivery` a worker hands back. */
  datatype Receipt = Receipt(
    deliveryId: Id, intentId: Id, recipientId: Id, revision: nat, attempt: nat, state: State,
    messageId: Option<string>, acceptedAt: Option<Time>, error: Option<string>)

  datatype VerifiedAck = VerifiedAck(
    deliveryId: Id, subjectId: Id, revision: nat, recipientId: Id, actorId: Id, callbackId: Id, verifiedAt: Time)

  datatype User = User(active: bool, recipientId: Id)

  const MaxAttempts: nat := 3

  function NewRow(intent: Intent, now: Time): Row {
    Row(intent, Pending, 0, None, None, None, None, None, now, None)
  }

  predicate Claimable(row: Row, maxAttempts: nat, now: Time) {
    && row.state in {Pending, FailedRetryable}
    && row.attempt < (if maxAttempts < MaxAttempts then maxAttempts else MaxAttempts)
    && (row.nextAttemptAt.Some? ==> row.nextAttemptAt.value <= now)
  }

  /** One selected row: a lease when its grant is still live, otherwise a final failure. */
  function ClaimRow(row: Row, live: bool, token: Token, leaseSeconds: nat, now: Time): Row {
    if live then
      row.(state := InFlight, attempt := row.attempt + 1, leaseToken := Some(token),
           leaseUntil := Some(now + leaseSeconds), updatedAt := now)
    else
      row.(state := FailedFinal, error := Some("authorization_revoked"))
  }

  function ClaimRows(rows: map<Id, Row>, picked: seq<Id>, live: set<Id>, token: Token, leaseSeconds: nat, now: Time)
    : map<Id, Row>
    requires forall id :: id in picked ==> id in rows
  {
    if picked == [] then rows
    else
      var row := ClaimRow(rows[picked[0]], picked[0] in live, token, leaseSeconds, now);
      ClaimRows(rows[picked[0] := row], picked[1..], live, token + 1, leaseSeconds, now)
  }

  /** A claim touches exactly the selected rows, each once, each with its own fresh token. */
  lemma {:induction false} ClaimRowsAt(
    rows: map<Id, Row>, picked: seq<Id>, live: set<Id>, token: Token, leaseSeconds: nat, now: Time)
    requires forall id :: id in picked ==> id in rows
    requires Distinct(picked)
    ensures var after := ClaimRows(rows, picked, live, token, leaseSeconds, now);
            && after.Keys == rows.Keys
            && (forall id :: id in rows && id !in picked ==> after[id] == rows[id])
            && (forall i :: 0 <= i < |picked| ==>
                  after[picked[i]] == ClaimRow(rows[picked[i]], picked[i] in live, token + i, leaseSeconds, now))
  {
    if picked != [] {
      var row := ClaimRow(rows[picked[0]], picked[0] in live, token, leaseSeconds, now);
      var next := rows[picked[0] := row];
      assert Distinct(picked[1..]);
      ClaimRowsAt(next, picked[1..], live, token + 1, leaseSeconds, now);
      var after := ClaimRows(next, picked[1..], live, token + 1, leaseSeconds, now);
      assert picked[0] !in picked[1..];
      forall i | 0 <= i < |picked|
        ensures after[picked[i]] == ClaimRow(rows[picked[i]], picked[i] in live, token + i, leaseSeconds, now)
      {
        if i > 0 {
          assert picked[i] == picked[1..][i - 1];
          assert after[picked[1..][i - 1]] ==
                 ClaimRow(next[picked[1..][i - 1]], picked[1..][i - 1] in live, token + 1 + (i - 1), leaseSeconds, now);
        }
      }
    }
  }

  /** The lease check of `finish_delivery`. */
  predicate Fenced(row: Row, token: Token, now: Time) {
    row.state != InFlight || row.leaseToken != Some(token) || row.leaseUntil.None? || row.leaseUntil.value <= now
  }

  /** A worker's result applied to an unfenced row. */
  function FinishRow(row: Row, receipt: Receipt, now: Time): Row {
    row.(state := if receipt.state == FailedRetryable && row.attempt >= MaxAttempts then FailedFinal else receipt.state,
         messageId := receipt.messageId,
         acceptedAt := receipt.acceptedAt,
         updatedAt := now,
         error := receipt.error,
         nextAttemptAt := Some(now + Pow2(row.attempt)),
         leaseToken := None,
         leaseUntil := None)
  }

  predicate ReportsOwnClaim(row: Row, claim: Claim, receipt: Receipt) {
    && receipt.deliveryId == claim.deliveryId
    && receipt.intentId == row.intent.intentId
    && receipt.recipientId == claim.intent.recipientId
    && receipt.revision == claim.intent.revision
    && receipt.attempt == claim.attempt
    && receipt.state in {Accepted, DryRun, FailedRetryable, FailedFinal, Unknown}
  }

  function FinishCheck(rows: map<Id, Row>, claim: Claim, receipt: Receipt, now: Time): (r: Option<ErrorCode>)
    ensures r.None? ==> claim.deliveryId in rows && !Fenced(rows[claim.deliveryId], claim.token, now)
  {
    if claim.deliveryId !in rows || Fenced(rows[claim.deliveryId], claim.token, now) then Some(RevisionMismatch)
    else if !ReportsOwnClaim(rows[claim.deliveryId], claim, receipt) then Some(InvalidOutput)
    else if claim.intent.channel == DryRunChannel && receipt.state == Accepted then Some(InvalidOutput)
    else None
  }

  predicate Expired(row: Row, now: Time) {
    row.state == InFlight && row.leaseUntil.Some? && row.leaseUntil.value <= now
  }

  function RecoverRow(row: Row, now: Time): Row {
    row.(state := Unknown, error := Some("lease_expired_after_possible_send"),
         leaseToken := None, leaseUntil := None, updatedAt := now)
  }

  function RecoverRows(rows: map<Id, Row>, picked: set<Id>, now: Time): map<Id, Row> {
    map id | id in rows :: if id in picked then RecoverRow(rows[id], now) else rows[id]
  }

  function AckRow(row: Row, now: Time): Row {
    row.(state := if row.state == Accepted then Acked else row.state, updatedAt := now)
  }

  datatype Ack = Ack(deliveryId: Id, actorId: Id, at: Time)

  /** Who calls, if the call is made in a session, and whether that session is live. */
  datatype Caller = Caller(actorId: Id, live: bool)

  predicate OwnAck(ack: Ack, v: VerifiedAck) { (ack.deliveryId, ack.actorId) == (v.deliveryId, v.actorId) }

  /** An event's or report's delivery, to this very active user, still granted and named exactly. */
  predicate MayAcknowledge(row: Row, v: VerifiedAck, caller: Option<Caller>, users: map<Id, User>, liveGrant: bool) {
    && !row.intent.subjectType.Exercise? && !row.intent.subjectType.Status?
    && (caller.Some? ==> caller.value == Caller(v.actorId, true))
    && liveGrant && v.actorId in users && users[v.actorId] == User(true, v.recipientId)
    && (v.recipientId, v.subjectId, v.revision) == (row.intent.recipientId, row.intent.subjectId, row.intent.revision)
  }

  function Distance(a: Time, b: Time): Time {
    if a < b then b - a else a - b
  }

  /** The deliveries of one database, updated in place by short transactions. */
  class DeliveryRepository {
    var rows: map<Id, Row>
    var acks: map<Id, Ack>              // keyed by callback ID
    var clock: Time
    var nextToken: Token

    constructor (now: Time)
      ensures rows == map[] && acks == map[] && clock == now && nextToken == 0
    {
      rows, acks, clock, nextToken := map[], map[], now, 0;
    }

    /** `picked` is what the database returns for the claim query: unlocked claimable rows, at most
        50, in their order. `live` are the deliveries whose grant `_live_grant` still allows. */
    method ClaimDeliveries(picked: seq<Id>, live: set<Id>, limit: nat, maxAttempts: nat, leaseSeconds: nat)
      returns (claims: seq<Claim>)
      requires Distinct(picked) && |picked| <= limit && |picked| <= 50
      requires forall id :: id in picked ==> id in rows && Claimable(rows[id], maxAttempts, clock)
      modifies this`rows, this`nextToken
      ensures rows == ClaimRows(old(rows), picked, live, old(nextToken), leaseSeconds, clock)
      ensures nextToken == old(nextToken) + |picked|
      // Every claim carries the lease its row now holds.
      ensures forall c :: c in claims ==>
                c.deliveryId in picked && c.deliveryId in live && c.deliveryId in old(rows)
                && c.attempt == old(rows)[c.deliveryId].attempt + 1 && c.intent == old(rows)[c.deliveryId].intent
                && old(nextToken) <= c.token < nextToken
      ensures |claims| <= |picked|
    {
      claims := [];
      var i := 0;
      while i < |picked|
        invariant i <= |picked|
        invariant forall id :: id in picked ==> id in rows
        invariant rows.Keys == old(rows).Keys
        invariant forall id :: id in rows && id !in picked[..i] ==> rows[id] == old(rows)[id]
        invariant nextToken == old(nextToken) + i
        invariant ClaimRows(old(rows), picked, live, old(nextToken), leaseSeconds, clock)
               == ClaimRows(rows, picked[i..], live, nextToken, leaseSeconds, clock)
        invariant |claims| <= i
        invariant forall c :: c in claims ==>
                    c.deliveryId in picked && c.deliveryId in live && c.deliveryId in old(rows)
                    && c.attempt == old(rows)[c.deliveryId].attempt + 1 && c.intent == old(rows)[c.deliveryId].intent
                    && old(nextToken) <= c.token < nextToken
      {
        var id := picked[i];
        var row := rows[id];
        assert picked[i] !in picked[..i];
        assert picked[i..][0] == id && picked[i..][1..] == picked[i + 1..];
        if id !in live {
          row := row.(state := FailedFinal, error := Some("authorization_revoked"));
        } else {
          row := row.(state := InFlight, attempt := row.attempt + 1);
          row := row.(leaseToken := Some(nextToken), leaseUntil := Some(clock + leaseSeconds), updatedAt := clock);
          claims := claims + [Claim(id, row.intent, nextToken, row.attempt)];
        }
        rows := rows[id := row];
        nextToken := nextToken + 1;
        i := i + 1;
      }
    }

    /** A result counts only while its own lease is live; a rejected one changes nothing. */
    method FinishDelivery(claim: Claim, receipt: Receipt) returns (r: Result<State>)
      modifies this`rows
      ensures r.Err? <==> FinishCheck(old(rows), claim, receipt, clock).Some?
      ensures r.Err? ==> rows == old(rows) && FinishCheck(old(rows), claim, receipt, clock) == Some(r.code)
      ensures r.Ok? ==> && claim.deliveryId in old(rows)
                        && rows == old(rows)[claim.deliveryId := FinishRow(old(rows)[claim.deliveryId], receipt, clock)]
                        && r.value == rows[claim.deliveryId].state
    {
      if claim.deliveryId !in rows || Fenced(rows[claim.deliveryId], claim.token, clock) {
        return Err(RevisionMismatch);
      }
      var row := rows[claim.deliveryId];
      if !ReportsOwnClaim(row, claim, receipt) {
        return Err(InvalidOutput);
      }
      if claim.intent.channel == DryRunChannel && receipt.state == Accepted {
        return Err(InvalidOutput);
      }
      row := row.(state := receipt.state);
      if row.state == FailedRetryable && row.attempt >= MaxAttempts {
        row := row.(state := FailedFinal);
      }
      row := row.(messageId := receipt.messageId, acceptedAt := receipt.acceptedAt, updatedAt := clock);
      row := row.(error := receipt.error, nextAttemptAt := Some(clock + Pow2(row.attempt)));
      row := row.(leaseToken := None, leaseUntil := None);
      rows := rows[claim.deliveryId := row];
      r := Ok(row.state);
    }

    /** Every unlocked expired lease becomes `Unknown`; `locked` rows are skipped. */
    method RecoverDeliveries(locked: set<Id>) returns (count: nat)
      modifies this`rows
      ensures var picked := set id | id in old(rows) && id !in locked && Expired(old(rows)[id], clock);
              rows == RecoverRows(old(rows), picked, clock) && count == |picked|
    {
      var picked := set id | id in rows && id !in locked && Expired(rows[id], clock);
      count := |picked|;
      var left := picked;
      while left != {}
        invariant left <= picked
        invariant rows == RecoverRows(old(rows), picked - left, clock)
      {
        var id :| id in left;
        rows := rows[id := RecoverRow(rows[id], clock)];
        left := left - {id};
        assert rows == RecoverRows(old(rows), picked - left, clock);
      }
      assert picked - left == picked;
    }

    /** A verified callback. A repeated callback returns its stored acknowledgement, once the live
        checks pass again; only an accepted row moves. */
    method Acknowledge(v: VerifiedAck, caller: Option<Caller>, users: map<Id, User>, liveGrant: bool) returns (r: Result<Ack>)
      modifies this`rows, this`acks
      ensures r.Err? ==> rows == old(rows) && acks == old(acks)
      ensures r.Ok? <==>
                && v.deliveryId in old(rows) && MayAcknowledge(old(rows)[v.deliveryId], v, caller, users, liveGrant)
                && Distance(clock, v.verifiedAt) <= 300
                && if v.callbackId in old(acks) then OwnAck(old(acks)[v.callbackId], v)
                   else old(rows)[v.deliveryId].state in {Accepted, Acked, DryRun}
      ensures r.Ok? ==> OwnAck(r.value, v)
      ensures r.Ok? && v.callbackId in old(acks) ==> rows == old(rows) && acks == old(acks) && r.value == acks[v.callbackId]
      ensures r.Ok? && v.callbackId !in old(acks) ==>
                && rows == old(rows)[v.deliveryId := AckRow(old(rows)[v.deliveryId], clock)]
                && acks == old(acks)[v.callbackId := r.value]
    {
      if v.deliveryId !in rows {
        return Err(Forbidden);
      }
      var row := rows[v.deliveryId];
      if row.intent.subjectType in {Exercise, Status} {
        return Err(Forbidden);
      }
      if caller.Some? {
        if !caller.value.live {
          return Err(Unauthorized);
        }
        if caller.value.actorId != v.actorId {
          return Err(Forbidden);
        }
      }
      if v.actorId !in users || !users[v.actorId].active || users[v.actorId].recipientId != v.recipientId
         || (v.recipientId, v.subjectId, v.revision)
              != (row.intent.recipientId, row.intent.subjectId, row.intent.revision)
         || !liveGrant {
        return Err(Forbidden);
      }
      if Distance(clock, v.verifiedAt) > 300 {
        return Err(ReplayRejected);
      }
      if v.callbackId in acks {
        var existing := acks[v.callbackId];
        if (existing.deliveryId, existing.actorId) != (v.deliveryId, v.actorId) {
          return Err(ReplayRejected);
        }
        return Ok(existing);
      }
      if row.state !in {Accepted, Acked, DryRun} {
        return Err(InvalidInput);
      }
      var ack := Ack(v.deliveryId, v.actorId, clock);
      acks := acks[v.callbackId := ack];
      if row.state == Accepted {
        row := row.(state := Acked);
      }
      rows := rows[v.deliveryId := row.(updatedAt := clock)];
      r := Ok(ack);
    }
  }
}
