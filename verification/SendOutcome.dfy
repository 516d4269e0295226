module SendOutcome {
  /** One send attempt: `ProviderHTTP.request` and `FeishuChannel.send`.

  The network and the platform are the environment. `Surroundings` fixes, for one attempt, how every
  awaited step ends; the methods below walk through them with the flags the source keeps, and say what
  the verdict proves about the platform.
  */

  import opened Common

  datatype Phase = Started | Responded | TransportFailure

  /** The decoded reply: `NotObject` for anything that is not a JSON object; `code` and `messageId`
      are present only when they have the right type. */
  datatype Body = NotObject | Object(code: Option<int>, messageId: Option<string>)

  datatype Event =
    | ConnectFailed                     // ConnectError, ConnectTimeout
    | PoolTimedOut                      // PoolTimeout
    | TransportBroken                   // every other HTTP error
    | RequestTimedOut                   // the request's own time limit
    | BodyTooLarge                      // more than 262144 bytes
    | Reply(status: int, body: Body)

  /** Where a time limit cuts a request short, if it does. */
  datatype Cut = Uncut | BeforeStart | BeforeDispatch | AfterDispatch

  datatype Wire = Wire(
    observed: bool,                     // a request recorder is installed
    reservation: string,
    recorderFailsOn: set<Phase>,
    timedOut: Cut,                      // its own limit; after the dispatch that is RequestTimedOut
    cancelled: Cut,                     // an outer limit, which skips the request's handlers
    event: Event)

  datatype Http =
    | Response(status: int, body: Body)
    | Failure(mayHaveArrived: bool)
    | Refused(code: ErrorCode)
    | Cancelled

  /** Environment assumption: which events leave open that the platform took the message. A connection
      or pool failure means nothing arrived; a well-formed reply below 500, outside 3xx, with an
      integer code other than 0 and 230049 means the platform rejected it. */
  predicate MayHaveTaken(event: Event) {
    match event
    case ConnectFailed => false
    case PoolTimedOut => false
    case Reply(status, body) => !ProvesRejection(status, body)
    case _ => true
  }

  predicate ProvesRejection(status: int, body: Body) {
    && status < 500
    && body.Object?
    && body.code.Some?
    && body.code.value !in {0, 230049}
    && !(300 <= status < 400)
  }

  /** Environment assumption: only a success reply that names its message proves acceptance. */
  predicate ProvesAcceptance(status: int, body: Body) {
    && status == 200
    && body.Object?
    && body.code == Some(0)
    && body.messageId.Some?
    && 0 < |body.messageId.value| <= 160
  }

  predicate WithoutReservation(wire: Wire) {
    wire.observed && Blank(wire.reservation)
  }

  /** The outer limit fires at a point the request reaches. */
  predicate ReachedCancellation(wire: Wire) {
    match wire.cancelled
    case Uncut => false
    case BeforeStart => true
    case BeforeDispatch => wire.timedOut != BeforeStart && !(wire.observed && Started in wire.recorderFailsOn)
    case AfterDispatch => wire.timedOut in {Uncut, AfterDispatch} && !(wire.observed && Started in wire.recorderFailsOn)
  }

  /** `ProviderHTTP.request`: at most one dispatch, no retry. `phases` lists the recorder calls made,
      in order. */
  method Request(wire: Wire) returns (result: Http, dispatched: bool, phases: seq<Phase>)
    ensures result.Failure? && !result.mayHaveArrived ==> !dispatched || !MayHaveTaken(wire.event)
    ensures result.Response? ==> dispatched && wire.event == Reply(result.status, result.body)
    ensures result.Refused? <==> WithoutReservation(wire)
    ensures result.Refused? ==> !dispatched && phases == []
    ensures result.Cancelled? <==> !WithoutReservation(wire) && ReachedCancellation(wire)
    ensures dispatched ==> wire.cancelled in {Uncut, AfterDispatch} && wire.timedOut in {Uncut, AfterDispatch}
    // The recorder sees a start before any end, and one end at most.
    ensures phases <= [Started, Responded] || phases <= [Started, TransportFailure]
    ensures dispatched && wire.observed ==> phases != []
    // A complete reply reaches the caller exactly when nothing interrupted it.
    ensures dispatched && wire.cancelled == Uncut && wire.event.Reply?
            && !(wire.observed && Responded in wire.recorderFailsOn)
            ==> result == Response(wire.event.status, wire.event.body)
    ensures dispatched && wire.cancelled == Uncut && !wire.event.Reply?
            ==> result == Failure(MayHaveTaken(wire.event))
    ensures dispatched && wire.cancelled == Uncut && wire.event.Reply?
            && wire.observed && Responded in wire.recorderFailsOn
            ==> result == Failure(true)
    ensures !dispatched && !result.Refused? && !result.Cancelled? ==> result == Failure(false)
    ensures result.Response? && wire.observed ==> phases == [Started, Responded]
  {
    phases := [];
    dispatched := false;
    if wire.observed && Blank(wire.reservation) {
      return Refused(Forbidden), false, [];
    }
    var responseComplete := false;
    if wire.cancelled == BeforeStart {
      return Cancelled, false, [];
    }
    if wire.timedOut == BeforeStart {
      return Failure(false), false, [];
    }
    if wire.observed {
      phases := phases + [Started];
      if Started in wire.recorderFailsOn {
        return Failure(false), false, phases;
      }
    }
    if wire.cancelled == BeforeDispatch {
      return Cancelled, false, phases;
    }
    if wire.timedOut == BeforeDispatch {
      return Failure(false), false, phases;
    }
    dispatched := true;
    if wire.cancelled == AfterDispatch {
      return Cancelled, true, phases;
    }
    var mayHaveArrived := dispatched;
    match wire.event {
      case Reply(status, body) =>
        responseComplete := true;
        if wire.observed {
          phases := phases + [Responded];
          if Responded in wire.recorderFailsOn {
            return Failure(true), true, phases;
          }
        }
        return Response(status, body), true, phases;
      case ConnectFailed => mayHaveArrived := false;
      case PoolTimedOut => mayHaveArrived := false;
      case _ =>
    }
    if dispatched && !responseComplete && wire.observed {
      // The recorder's own failure carries the same flag.
      phases := phases + [TransportFailure];
    }
    result := Failure(mayHaveArrived);
  }

  /** How an awaited step before the send ended. */
  datatype Raised =
    | ServiceFailure(code: ErrorCode, retryable: bool)
    | RequestFailure(mayHaveArrived: bool)
    | TimedOut
    | OtherException

  datatype Awaited = Yes | No | Raises(raised: Raised)

  datatype Surroundings = Surroundings(
    preflight: Option<ErrorCode>,       // intent validation and settings, outside the try block
    recipientKnown: bool,
    testScopeNeeded: bool,              // fixture or trial content
    recipientIsTest: bool,
    firstAuthorization: Awaited,
    token: Awaited,                     // building the message and fetching the tenant token
    secondAuthorization: Awaited,
    reservation: Awaited,               // request reservation and remaining budget
    wire: Wire)

  datatype Verdict = Accepted(messageId: string) | DryRun | FailedRetryable | FailedFinal | Unknown

  /** What `send` hands to its caller: a receipt, or an exception it does not catch. */
  datatype Sent = Receipt(verdict: Verdict) | Escaped(raised: Raised)

  /** `provider_error`: which rejections may be retried. */
  predicate RetryableRejection(status: int, code: int) {
    if code == 99991403 then false
    else if code in {99991663, 99991665, 99991677} then true
    else code in {230020, 99991400} || status == 429
  }

  /** The receipt for a complete reply. */
  function ClassifyReply(status: int, body: Body): (v: Verdict)
    ensures v.Accepted? <==> ProvesAcceptance(status, body)
    ensures v.FailedRetryable? || v.FailedFinal? <==> ProvesRejection(status, body)
    ensures v != DryRun
  {
    if status >= 500 || !body.Object? || body.code.None? then Unknown
    else if status == 200 && body.code.value == 0 then
      if body.messageId.Some? && 0 < |body.messageId.value| <= 160 then Accepted(body.messageId.value) else Unknown
    else if body.code.value in {0, 230049} || 300 <= status < 400 then Unknown
    else if RetryableRejection(status, body.code.value) then FailedRetryable
    else FailedFinal
  }

  /** Every step before the send succeeded. */
  predicate Prepared(w: Surroundings) {
    && w.preflight.None?
    && w.recipientKnown
    && (w.testScopeNeeded ==> w.recipientIsTest)
    && w.firstAuthorization == Yes && w.token == Yes && w.secondAuthorization == Yes && w.reservation == Yes
  }

  /** The receipt for an exception caught inside `send`. */
  function ClassifyRaised(raised: Raised, sending: bool): Sent {
    match raised
    case RequestFailure(may) => Receipt(if sending && may then Unknown else FailedRetryable)
    case TimedOut => Receipt(if sending then Unknown else FailedRetryable)
    case ServiceFailure(_, retryable) => Receipt(if retryable then FailedRetryable else FailedFinal)
    case OtherException => Escaped(OtherException)
  }

  /** What a verdict proves about the platform, given whether a request left and how it ended. */
  ghost predicate Sound(sent: Sent, dispatched: bool, event: Event) {
    && (sent.Receipt? && sent.verdict.Accepted? ==>
          dispatched && event.Reply? && ProvesAcceptance(event.status, event.body)
          && event.body.messageId == Some(sent.verdict.messageId))
    && (sent.Receipt? && (sent.verdict.FailedRetryable? || sent.verdict.FailedFinal?) ==>
          !dispatched || !MayHaveTaken(event))
    && (sent.Receipt? ==> sent.verdict != DryRun)
    // A service error leaves `send` only from its checks before the first await.
    && (sent.Escaped? ==> sent.raised.OtherException? || !dispatched)
  }

  /** `FeishuChannel.send`. */
  method Send(w: Surroundings) returns (sent: Sent, dispatched: bool)
    ensures Sound(sent, dispatched, w.wire.event)
    ensures dispatched ==> Prepared(w)
    ensures dispatched && w.wire.cancelled == Uncut && w.wire.event.Reply?
            && !(w.wire.observed && Responded in w.wire.recorderFailsOn)
            ==> sent == Receipt(ClassifyReply(w.wire.event.status, w.wire.event.body))
    // Everything else that may have reached the platform is reported as unknown.
    ensures (dispatched && MayHaveTaken(w.wire.event) && !(sent.Receipt? && sent.verdict.Accepted?))
            ==> sent == Receipt(Unknown)
    ensures dispatched && w.wire.cancelled == Uncut && !w.wire.event.Reply? && !MayHaveTaken(w.wire.event)
            ==> sent == Receipt(FailedRetryable)
    ensures !Prepared(w) && sent.Receipt? ==> sent.verdict.FailedRetryable? || sent.verdict.FailedFinal?
    ensures w.preflight.None? && w.recipientKnown && (w.testScopeNeeded ==> w.recipientIsTest)
            && (w.firstAuthorization == No || (w.firstAuthorization == Yes && w.token == Yes && w.secondAuthorization == No))
            ==> sent == Receipt(FailedFinal)
  {
    dispatched := false;
    if w.preflight.Some? {
      return Escaped(ServiceFailure(w.preflight.value, false)), false;
    }
    if !w.recipientKnown || (w.testScopeNeeded && !w.recipientIsTest) {
      return Receipt(FailedFinal), false;
    }
    var sending := false;
    var raised: Option<Raised> := None;
    match w.firstAuthorization {
      case No => return Receipt(FailedFinal), false;
      case Raises(r) => raised := Some(r);
      case Yes =>
        if w.token.Raises? {
          raised := Some(w.token.raised);
        } else if w.token == No {
          raised := Some(ServiceFailure(InvalidOutput, false));
        } else if w.secondAuthorization.Raises? {
          raised := Some(w.secondAuthorization.raised);
        } else if w.secondAuthorization == No {
          return Receipt(FailedFinal), false;
        } else if w.reservation.Raises? {
          raised := Some(w.reservation.raised);
        } else if w.reservation == No {
          raised := Some(ServiceFailure(Forbidden, false));
        } else {
          sending := true;
          var result, left, phases := Request(w.wire);
          dispatched := left;
          match result {
            case Response(status, body) => return Receipt(ClassifyReply(status, body)), dispatched;
            case Failure(may) => raised := Some(RequestFailure(may));
            case Refused(code) => raised := Some(ServiceFailure(code, false));
            case Cancelled => raised := Some(TimedOut);
          }
        }
    }
    sent := ClassifyRaised(raised.value, sending);
  }

  /** The state `send_pending` reports for an exception raised while delivering a claim. */
  function AfterException(raised: Raised): Verdict {
    match raised
    case ServiceFailure(code, _) =>
      if code == RateLimited then FailedRetryable
      else if code in {Unauthorized, Forbidden, InvalidInput, NotImplemented, QuotaExhausted} then FailedFinal
      else Unknown
    case _ => Unknown
  }

  datatype Lane = Lane(
    intentAuthorized: bool,             // authorize_intent right after the claim
    budget: Option<ErrorCode>,          // reservation or daily charge before the send
    deadlineCutsIn: bool,               // the runtime's own time limit around the send
    maxSendAttempts: Option<nat>,       // only the bounded C1 and status lanes
    dryRun: bool)

  predicate Proves(verdict: Verdict, dispatched: bool, event: Event) {
    && (verdict.Accepted? ==> dispatched && event.Reply? && ProvesAcceptance(event.status, event.body))
    && (verdict.FailedRetryable? || verdict.FailedFinal? ==> !dispatched || !MayHaveTaken(event))
    && (verdict.DryRun? ==> !dispatched)
  }

  /** The body of `send_pending`'s loop up to `finish_delivery`: one claim, one verdict. */
  method Deliver(lane: Lane, w: Surroundings, attempt: nat) returns (verdict: Verdict, dispatched: bool)
    ensures Proves(verdict, dispatched, w.wire.event)
    ensures !lane.intentAuthorized ==> verdict == FailedFinal && !dispatched
    ensures lane.dryRun ==> !dispatched && !verdict.Accepted?
    ensures verdict.DryRun? ==> lane.dryRun
    ensures verdict.FailedRetryable? && lane.maxSendAttempts.Some? ==> attempt < lane.maxSendAttempts.value
    ensures dispatched && MayHaveTaken(w.wire.event) && !verdict.Accepted? ==> verdict == Unknown
  {
    dispatched := false;
    if !lane.intentAuthorized {
      return FailedFinal, false;
    }
    if lane.budget.Some? {
      verdict := AfterException(ServiceFailure(lane.budget.value, false));
    } else if lane.dryRun {
      verdict := if w.preflight.Some? then AfterException(ServiceFailure(w.preflight.value, false))
                 else if lane.deadlineCutsIn then AfterException(ServiceFailure(Timeout, false))
                 else DryRun;
    } else {
      var sent: Sent;
      sent, dispatched := Send(w);
      if lane.deadlineCutsIn {
        verdict := AfterException(ServiceFailure(Timeout, false));
      } else {
        match sent {
          case Receipt(v) => verdict := v;
          case Escaped(raised) => verdict := AfterException(raised);
        }
      }
    }
    if lane.maxSendAttempts.Some? && verdict.FailedRetryable? && attempt >= lane.maxSendAttempts.value {
      verdict := FailedFinal;
    }
  }
}
