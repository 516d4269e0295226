module PermissionLedger {
  /** Atomic provider reservations under immutable approval scopes (`storage/permissions.py`), their
  stops (`storage/c1.py`) and the daily counters of `storage/operations.py`.

  `fingerprint` is injective, so a stored digest is represented by the scope it was taken of. */

  import opened Common

  type ApprovalId = string
  type Day = int

  datatype Permission = Permission(
    approvalId: ApprovalId, validFrom: Time, expiresAt: Time, maxRequests: nat, maxTokens: nat, terms: string)

  predicate Active(p: Permission, now: Time) { p.validFrom <= now < p.expiresAt }

  function DayOf(t: Time): Day { t / 86400 }

  datatype Scope = Scope(permission: Permission, blocked: bool)

  /** `Local` is a name `charge_budget` is called with ("processing", "delivery", "source:..."). */
  datatype Bucket = ScopeRequests(id: ApprovalId) | ScopeTokens(id: ApprovalId) | Provider(kind: string) | Local(name: string)

  predicate OfScope(b: Bucket) { b.ScopeRequests? || b.ScopeTokens? }

  datatype Key = Key(day: Day, bucket: Bucket)

  datatype Call = Call(
    approvalId: ApprovalId, kind: string, reservedTokens: nat,
    usageRecorded: bool, inputTokens: Option<nat>, outputTokens: Option<nat>)

  /** The three tables; a call's reservation ID is its position, so it is always fresh. */
  datatype Ledger = Ledger(scopes: map<ApprovalId, Scope>, used: map<Key, nat>, calls: seq<Call>)

  datatype Request = Request(
    kind: string, dailyLimit: nat, reservedTokens: int, dailyTokens: nat,
    requestReserve: nat, tokenReserve: nat, urgent: bool)

  function Used(used: map<Key, nat>, key: Key): nat { if key in used then used[key] else 0 }

  // ---- binding ----

  function Bind(scopes: map<ApprovalId, Scope>, p: Permission, now: Time): (r: Result<map<ApprovalId, Scope>>)
    ensures r.Ok? ==> p.approvalId in r.value && r.value[p.approvalId] == Scope(p, false) && Active(p, now)
    ensures r.Ok? ==> r.value == scopes[p.approvalId := Scope(p, false)]
    ensures r.Ok? <==> Active(p, now) && (p.approvalId in scopes ==> scopes[p.approvalId] == Scope(p, false))
  {
    var bound := if p.approvalId in scopes then scopes else scopes[p.approvalId := Scope(p, false)];
    if bound[p.approvalId].permission != p || bound[p.approvalId].blocked || !Active(p, now) then Err(Forbidden)
    else
      assert bound == scopes[p.approvalId := Scope(p, false)];
      Ok(bound)
  }

  // ---- charging several counters, all or none ----

  datatype Charge = Charge(key: Key, limit: nat, amount: nat)

  function Allowance(limit: nat, reserve: nat, urgent: bool): nat {
    if urgent then limit else if limit >= reserve then limit - reserve else 0
  }

  function Charges(p: Permission, r: Request, now: Time): seq<Charge> {
    [Charge(Key(DayOf(p.validFrom), ScopeRequests(p.approvalId)), p.maxRequests, 1),
     Charge(Key(DayOf(now), Provider(r.kind)), Allowance(r.dailyLimit, r.requestReserve, r.urgent), 1)]
    + (if r.kind == "model" && r.reservedTokens > 0 then
         [Charge(Key(DayOf(p.validFrom), ScopeTokens(p.approvalId)), p.maxTokens, r.reservedTokens),
          Charge(Key(DayOf(now), Provider("model_tokens")), Allowance(r.dailyTokens, r.tokenReserve, r.urgent),
                 r.reservedTokens)]
       else [])
  }

  function BucketName(b: Bucket): string {
    match b
    case ScopeRequests(id) => "scope:" + id + ":requests"
    case ScopeTokens(id) => "scope:" + id + ":tokens"
    case Provider(kind) => "provider:" + kind
    case Local(name) => name
  }

  predicate KeyLess(a: Key, b: Key) {
    a.day < b.day || (a.day == b.day && StringLess(BucketName(a.bucket), BucketName(b.bucket)))
  }

  /** The order in which budgets are charged. */
  function Sort(charges: seq<Charge>): (r: seq<Charge>)
    ensures multiset(r) == multiset(charges)
  {
    SortBy((a: Charge, b: Charge) => KeyLess(a.key, b.key), charges)
  }

  /** Charges in order, stopping at the first counter that cannot take its amount. */
  function ChargeAll(used: map<Key, nat>, charges: seq<Charge>): Option<map<Key, nat>>
    decreases |charges|
  {
    if charges == [] then Some(used)
    else
      var c := charges[0];
      if Used(used, c.key) + c.amount > c.limit then None
      else ChargeAll(used[c.key := Used(used, c.key) + c.amount], charges[1..])
  }

  predicate DistinctKeys(charges: seq<Charge>) {
    forall i, j :: 0 <= i < j < |charges| ==> charges[i].key != charges[j].key
  }

  /** With distinct counters, order does not matter: the charge succeeds exactly when every counter has
      room, and then each named counter grows by its own amount and no other changes. */
  lemma {:induction false} ChargeAllMeans(used: map<Key, nat>, charges: seq<Charge>)
    requires DistinctKeys(charges)
    ensures ChargeAll(used, charges).Some? <==> forall c :: c in charges ==> Used(used, c.key) + c.amount <= c.limit
    ensures ChargeAll(used, charges).Some? ==>
              && (forall c :: c in charges ==> Used(ChargeAll(used, charges).value, c.key) == Used(used, c.key) + c.amount)
              && (forall key :: (forall c :: c in charges ==> c.key != key) ==>
                    Used(ChargeAll(used, charges).value, key) == Used(used, key))
    decreases |charges|
  {
    if charges != [] {
      var c, rest := charges[0], charges[1..];
      var next := used[c.key := Used(used, c.key) + c.amount];
      ChargeAllMeans(next, rest);
      forall d | d in rest ensures d.key != c.key && Used(next, d.key) == Used(used, d.key) {
        var i :| 0 <= i < |rest| && rest[i] == d;
        assert charges[i + 1] == d;
      }
      assert forall d :: d in charges <==> d == c || d in rest;
      if ChargeAll(used, charges).Some? {
        var after := ChargeAll(used, charges).value;
        assert Used(after, c.key) == Used(next, c.key);
        forall key | forall d :: d in charges ==> d.key != key ensures Used(after, key) == Used(used, key) {
          assert forall d :: d in rest ==> d.key != key;
          assert c.key != key;
        }
      }
    }
  }

  /** The counters of one reservation differ pairwise. */
  lemma ChargesDistinct(p: Permission, r: Request, now: Time)
    ensures DistinctKeys(Charges(p, r, now))
  {
  }

  lemma SortedDistinct(charges: seq<Charge>, sorted: seq<Charge>)
    requires DistinctKeys(charges) && multiset(sorted) == multiset(charges)
    ensures DistinctKeys(sorted) && forall c :: c in sorted <==> c in charges
  {
    SameMembers(sorted, charges);
    forall i, j | 0 <= i < j < |sorted| ensures sorted[i].key != sorted[j].key {
      if sorted[i].key == sorted[j].key {
        assert sorted[i] in sorted && sorted[j] in sorted;
        var a :| 0 <= a < |charges| && charges[a] == sorted[i];
        var b :| 0 <= b < |charges| && charges[b] == sorted[j];
        assert a == b;
        TwoOccurrences(sorted, i, j);
        OneOccurrence(charges, a);
      }
    }
  }

  lemma TwoOccurrences(s: seq<Charge>, i: nat, j: nat)
    requires i < j < |s| && s[i] == s[j]
    ensures multiset(s)[s[i]] >= 2
  {
    assert s == s[..i] + [s[i]] + s[i + 1..j] + [s[j]] + s[j + 1..];
  }

  lemma OneOccurrence(s: seq<Charge>, a: nat)
    requires a < |s| && DistinctKeys(s)
    ensures multiset(s)[s[a]] == 1
  {
    assert s == s[..a] + [s[a]] + s[a + 1..];
    assert s[a] !in s[..a] && s[a] !in s[a + 1..];
  }

  // ---- one reservation ----

  function InputError(r: Request): Option<ErrorCode> {
    if !(0 <= r.reservedTokens <= 100_000_000) then Some(InvalidInput)
    else if r.kind == "model" && r.reservedTokens == 0 then Some(InvalidInput)
    else None
  }

  function Reserve(l: Ledger, p: Permission, r: Request, now: Time): (res: Result<Ledger>)
    ensures res.Ok? ==> r.reservedTokens >= 0 && res.value.calls == l.calls + [Call(p.approvalId, r.kind, r.reservedTokens, false, None, None)]
  {
    if InputError(r).Some? then Err(InputError(r).value)
    else
      var bound := Bind(l.scopes, p, now);
      if bound.Err? then Err(bound.code)
      else
        var used := ChargeAll(l.used, Sort(Charges(p, r, now)));
        if used.None? then Err(QuotaExhausted)
        else Ok(Ledger(bound.value, used.value, l.calls + [Call(p.approvalId, r.kind, r.reservedTokens, false, None, None)]))
  }

  /** `charge_budget`: one unit of one daily counter, which is never a scope's. */
  function ChargeDaily(l: Ledger, bucket: Bucket, limit: nat, reserve: nat, urgent: bool, now: Time): Result<Ledger> {
    if OfScope(bucket) then Err(InvalidInput)
    else
      var used := ChargeAll(l.used, [Charge(Key(DayOf(now), bucket), Allowance(limit, reserve, urgent), 1)]);
      if used.None? then Err(QuotaExhausted) else Ok(l.(used := used.value))
  }

  /** A usage report: `inputTokens` and `outputTokens` are both given or both unknown. */
  function RecordUsage(l: Ledger, id: nat, inputTokens: Option<int>, outputTokens: Option<int>): Result<Ledger> {
    if (inputTokens.Some? && !(0 <= inputTokens.value <= 100_000_000))
       || (outputTokens.Some? && !(0 <= outputTokens.value <= 100_000_000)) then Err(InvalidInput)
    else if inputTokens.None? != outputTokens.None? then Err(InvalidInput)
    else if id >= |l.calls| || l.calls[id].kind != "model" then Err(InvalidInput)
    else
      var call := l.calls[id];
      if call.usageRecorded then
        if (call.inputTokens, call.outputTokens) != (inputTokens, outputTokens) then Err(ReplayRejected) else Ok(l)
      else
        var recorded := l.(calls := l.calls[id := call.(usageRecorded := true, inputTokens := inputTokens,
                                                        outputTokens := outputTokens)]);
        if inputTokens.Some? && inputTokens.value + outputTokens.value > call.reservedTokens
           && call.approvalId in l.scopes then
          Ok(recorded.(scopes := l.scopes[call.approvalId := l.scopes[call.approvalId].(blocked := true)]))
        else Ok(recorded)
  }

  /** `stop_c1` and `stop_status`. */
  function Stop(l: Ledger, p: Permission): Result<Ledger> {
    if p.approvalId !in l.scopes then Ok(l.(scopes := l.scopes[p.approvalId := Scope(p, true)]))
    else if l.scopes[p.approvalId].permission != p then Err(Forbidden)
    else Ok(l.(scopes := l.scopes[p.approvalId := Scope(p, true)]))
  }

  // ---- runs ----

  datatype Op =
    | ReserveOp(permission: Permission, request: Request, now: Time)
    | ChargeOp(bucket: Bucket, limit: nat, reserve: nat, urgent: bool, now: Time)
    | UsageOp(id: nat, inputTokens: Option<int>, outputTokens: Option<int>)
    | StopOp(permission: Permission)

  function Attempt(l: Ledger, op: Op): Result<Ledger> {
    match op
    case ReserveOp(p, r, now) => Reserve(l, p, r, now)
    case ChargeOp(bucket, limit, reserve, urgent, now) => ChargeDaily(l, bucket, limit, reserve, urgent, now)
    case UsageOp(id, input, output) => RecordUsage(l, id, input, output)
    case StopOp(p) => Stop(l, p)
  }

  /** A rejected operation leaves every table as it was. */
  function Apply(l: Ledger, op: Op): Ledger {
    var r := Attempt(l, op);
    if r.Ok? then r.value else l
  }

  function Run(l: Ledger, ops: seq<Op>): Ledger
    decreases |ops|
  {
    if ops == [] then l else Run(Apply(l, ops[0]), ops[1..])
  }

  const EmptyLedger := Ledger(map[], map[], [])

  function Requests(calls: seq<Call>, id: ApprovalId): nat {
    if calls == [] then 0
    else Requests(calls[..|calls| - 1], id) + if calls[|calls| - 1].approvalId == id then 1 else 0
  }

  function ModelTokens(calls: seq<Call>, id: ApprovalId): nat {
    if calls == [] then 0
    else
      var last := calls[|calls| - 1];
      ModelTokens(calls[..|calls| - 1], id)
      + if last.approvalId == id && last.kind == "model" then last.reservedTokens else 0
  }

  lemma {:induction false} SumsKeep(calls: seq<Call>, other: seq<Call>, id: ApprovalId)
    requires |calls| == |other|
    requires forall i :: 0 <= i < |calls| ==>
               calls[i].approvalId == other[i].approvalId && calls[i].kind == other[i].kind
               && calls[i].reservedTokens == other[i].reservedTokens
    ensures Requests(calls, id) == Requests(other, id) && ModelTokens(calls, id) == ModelTokens(other, id)
  {
    if calls != [] {
      SumsKeep(calls[..|calls| - 1], other[..|other| - 1], id);
    }
  }

  function RequestKey(p: Permission): Key { Key(DayOf(p.validFrom), ScopeRequests(p.approvalId)) }
  function TokenKey(p: Permission): Key { Key(DayOf(p.validFrom), ScopeTokens(p.approvalId)) }

  /** The counters of one approval agree with its stored calls. */
  predicate Balanced(l: Ledger, id: ApprovalId) {
    if id in l.scopes then
      var p := l.scopes[id].permission;
      && p.approvalId == id
      && Used(l.used, RequestKey(p)) == Requests(l.calls, id) <= p.maxRequests
      && Used(l.used, TokenKey(p)) == ModelTokens(l.calls, id) <= p.maxTokens
    else
      Requests(l.calls, id) == 0 && ModelTokens(l.calls, id) == 0
  }

  ghost predicate Sound(l: Ledger) {
    && (forall id :: Balanced(l, id))
    // Scope counters exist only for bound scopes, on the day their scope names.
    && (forall key :: key in l.used && OfScope(key.bucket) ==>
          key.bucket.id in l.scopes && key.day == DayOf(l.scopes[key.bucket.id].permission.validFrom))
  }

  /** What a successful reservation does to the scope counters. */
  lemma ReserveCounters(l: Ledger, p: Permission, r: Request, now: Time)
    requires Reserve(l, p, r, now).Ok?
    ensures var l' := Reserve(l, p, r, now).value;
            && Used(l'.used, RequestKey(p)) == Used(l.used, RequestKey(p)) + 1 <= p.maxRequests
            && Used(l'.used, TokenKey(p)) == Used(l.used, TokenKey(p)) + (if r.kind == "model" then r.reservedTokens else 0)
            && (r.kind == "model" ==> Used(l'.used, TokenKey(p)) <= p.maxTokens)
            && (forall key: Key :: OfScope(key.bucket) && key != RequestKey(p) && key != TokenKey(p) ==>
                  Used(l'.used, key) == Used(l.used, key))
  {
    var charges := Charges(p, r, now);
    var sorted := Sort(charges);
    ChargesDistinct(p, r, now);
    SortedDistinct(charges, sorted);
    ChargeAllMeans(l.used, sorted);
    assert charges[0] in sorted;
    if r.kind == "model" { assert charges[2] in sorted; }
    forall key: Key | OfScope(key.bucket) && key != RequestKey(p) && (r.kind != "model" || key != TokenKey(p))
      ensures Used(Reserve(l, p, r, now).value.used, key) == Used(l.used, key)
    {
      forall c | c in sorted ensures c.key != key {
        assert c in charges;
      }
    }
  }

  lemma {:induction false} ChargeKeys(used: map<Key, nat>, charges: seq<Charge>, key: Key)
    requires ChargeAll(used, charges).Some?
    ensures key in ChargeAll(used, charges).value <==> key in used || exists c :: c in charges && c.key == key
    decreases |charges|
  {
    if charges != [] {
      var c := charges[0];
      ChargeKeys(used[c.key := Used(used, c.key) + c.amount], charges[1..], key);
      assert forall d :: d in charges <==> d == c || d in charges[1..];
    }
  }

  lemma ReserveKeepsBalance(l: Ledger, p: Permission, r: Request, now: Time, id: ApprovalId)
    requires Sound(l) && Reserve(l, p, r, now).Ok?
    ensures Balanced(Reserve(l, p, r, now).value, id)
  {
    var l' := Reserve(l, p, r, now).value;
    ReserveCounters(l, p, r, now);
    assert l'.calls[..|l'.calls| - 1] == l.calls;
    assert Balanced(l, id);
    if id == p.approvalId && id !in l.scopes {
      assert RequestKey(p) !in l.used && TokenKey(p) !in l.used;
    }
  }

  lemma ReserveKeepsKeys(l: Ledger, p: Permission, r: Request, now: Time, key: Key)
    requires Sound(l) && Reserve(l, p, r, now).Ok?
    requires key in Reserve(l, p, r, now).value.used && OfScope(key.bucket)
    ensures var scopes := Reserve(l, p, r, now).value.scopes;
            key.bucket.id in scopes && key.day == DayOf(scopes[key.bucket.id].permission.validFrom)
  {
    var charges := Charges(p, r, now);
    var sorted := Sort(charges);
    ChargeKeys(l.used, sorted, key);
    if key !in l.used {
      var c :| c in sorted && c.key == key;
      ChargesDistinct(p, r, now);
      SortedDistinct(charges, sorted);
      assert c in charges;
    }
  }

  lemma ReserveKeepsSound(l: Ledger, p: Permission, r: Request, now: Time)
    requires Sound(l) && Reserve(l, p, r, now).Ok?
    ensures Sound(Reserve(l, p, r, now).value)
  {
    forall id { ReserveKeepsBalance(l, p, r, now, id); }
    forall key | key in Reserve(l, p, r, now).value.used && OfScope(key.bucket) { ReserveKeepsKeys(l, p, r, now, key); }
  }

  lemma ChargeDailyKeepsSound(l: Ledger, op: Op)
    requires Sound(l) && op.ChargeOp?
    ensures Sound(Apply(l, op))
  {
    var l' := Apply(l, op);
    var key := Key(DayOf(op.now), op.bucket);
    if l' != l {
      ChargeOne(l.used, Charge(key, Allowance(op.limit, op.reserve, op.urgent), 1));
      assert l'.used == l.used[key := Used(l.used, key) + 1];
    }
    forall a ensures Balanced(l', a) {
      assert Balanced(l, a);
    }
  }

  lemma ApplyKeepsSound(l: Ledger, op: Op)
    requires Sound(l)
    ensures Sound(Apply(l, op))
  {
    match op {
      case ReserveOp(p, r, now) => if Reserve(l, p, r, now).Ok? { ReserveKeepsSound(l, p, r, now); }
      case ChargeOp(bucket, limit, reserve, urgent, now) => ChargeDailyKeepsSound(l, op);
      case UsageOp(id, input, output) =>
        var l' := Apply(l, op);
        forall a ensures Balanced(l', a) {
          assert Balanced(l, a);
          SumsKeep(l'.calls, l.calls, a);
        }
      case StopOp(p) =>
        var l' := Apply(l, op);
        forall a ensures Balanced(l', a) {
          assert Balanced(l, a);
          if a == p.approvalId && a !in l.scopes { assert RequestKey(p) !in l.used && TokenKey(p) !in l.used; }
        }
    }
  }

  lemma {:induction false} RunKeepsSound(l: Ledger, ops: seq<Op>)
    requires Sound(l)
    ensures Sound(Run(l, ops))
    decreases |ops|
  {
    if ops != [] {
      ApplyKeepsSound(l, ops[0]);
      RunKeepsSound(Apply(l, ops[0]), ops[1..]);
    }
  }

  /** Main result. Over every run, each approval's request counter equals its number of stored calls
      and its token counter the tokens its model calls reserved, both within its scope. */
  lemma CountersMatchCalls(ops: seq<Op>, id: ApprovalId)
    ensures Balanced(Run(EmptyLedger, ops), id)
  {
    assert Sound(EmptyLedger);
    RunKeepsSound(EmptyLedger, ops);
  }

  predicate ScopeKept(l: Ledger, l': Ledger, id: ApprovalId)
    requires id in l.scopes
  {
    && id in l'.scopes && l'.scopes[id].permission == l.scopes[id].permission
    && (l.scopes[id].blocked ==> l'.scopes[id].blocked && Requests(l'.calls, id) == Requests(l.calls, id))
  }

  lemma ReserveScope(l: Ledger, p: Permission, r: Request, now: Time, id: ApprovalId)
    requires id in l.scopes
    ensures ScopeKept(l, Apply(l, ReserveOp(p, r, now)), id)
  {
    var l' := Apply(l, ReserveOp(p, r, now));
    assert l' != l ==> l'.calls[..|l'.calls| - 1] == l.calls;
  }

  lemma UsageScope(l: Ledger, op: Op, id: ApprovalId)
    requires op.UsageOp? && id in l.scopes
    ensures ScopeKept(l, Apply(l, op), id)
  {
    SumsKeep(Apply(l, op).calls, l.calls, id);
  }

  /** No operation changes a bound scope's terms, lifts a block or gives a blocked scope a call. */
  lemma ScopeStep(l: Ledger, op: Op, id: ApprovalId)
    requires id in l.scopes
    ensures id in Apply(l, op).scopes
    ensures Apply(l, op).scopes[id].permission == l.scopes[id].permission
    ensures l.scopes[id].blocked ==> Apply(l, op).scopes[id].blocked && Requests(Apply(l, op).calls, id) == Requests(l.calls, id)
  {
    match op {
      case ReserveOp(p, r, now) => ReserveScope(l, p, r, now, id);
      case ChargeOp(_, _, _, _, _) =>
      case UsageOp(_, _, _) => UsageScope(l, op, id);
      case StopOp(_) =>
    }
  }

  lemma {:induction false} BlockedStaysBlocked(l: Ledger, ops: seq<Op>, id: ApprovalId)
    requires id in l.scopes
    ensures id in Run(l, ops).scopes && Run(l, ops).scopes[id].permission == l.scopes[id].permission
    ensures l.scopes[id].blocked ==> Run(l, ops).scopes[id].blocked && Requests(Run(l, ops).calls, id) == Requests(l.calls, id)
    decreases |ops|
  {
    if ops != [] {
      ScopeStep(l, ops[0], id);
      BlockedStaysBlocked(Apply(l, ops[0]), ops[1..], id);
    }
  }

  /** Exactly when a reservation is granted: valid input, an unaltered unblocked active scope, and room
      in every counter it names. */
  lemma ReserveGranted(l: Ledger, p: Permission, r: Request, now: Time)
    ensures Reserve(l, p, r, now).Ok? <==>
              && InputError(r).None?
              && Active(p, now)
              && (p.approvalId in l.scopes ==> l.scopes[p.approvalId] == Scope(p, false))
              && forall c :: c in Charges(p, r, now) ==> Used(l.used, c.key) + c.amount <= c.limit
  {
    var charges := Charges(p, r, now);
    ChargesDistinct(p, r, now);
    SortedDistinct(charges, Sort(charges));
    ChargeAllMeans(l.used, Sort(charges));
  }

  // ---- the urgent reserve of a daily counter ----

  function ChargesOf(op: Op): seq<Charge> {
    match op
    case ReserveOp(p, r, now) => Charges(p, r, now)
    case ChargeOp(bucket, limit, reserve, urgent, now) => [Charge(Key(DayOf(now), bucket), Allowance(limit, reserve, urgent), 1)]
    case _ => []
  }

  predicate Urgent(op: Op) {
    match op
    case ReserveOp(_, r, _) => r.urgent
    case ChargeOp(_, _, _, urgent, _) => urgent
    case _ => false
  }

  function AmountOn(charges: seq<Charge>, key: Key): nat {
    if charges == [] then 0 else if charges[0].key == key then charges[0].amount else AmountOn(charges[1..], key)
  }

  /** What urgent (or ordinary) operations of a run added to a counter. */
  function Usage(l: Ledger, ops: seq<Op>, key: Key, urgent: bool): nat
    decreases |ops|
  {
    if ops == [] then 0
    else
      (if Urgent(ops[0]) == urgent && Attempt(l, ops[0]).Ok? then AmountOn(ChargesOf(ops[0]), key) else 0)
      + Usage(Apply(l, ops[0]), ops[1..], key, urgent)
  }

  /** Every operation charges this counter under the same configured limit and reserve. */
  ghost predicate Fixed(ops: seq<Op>, key: Key, limit: nat, reserve: nat) {
    forall op, c :: op in ops && c in ChargesOf(op) && c.key == key ==> c.limit == Allowance(limit, reserve, Urgent(op))
  }

  lemma {:induction false} AmountOnMeans(charges: seq<Charge>, key: Key)
    requires DistinctKeys(charges)
    ensures forall c :: c in charges && c.key == key ==> AmountOn(charges, key) == c.amount
    ensures (forall c :: c in charges ==> c.key != key) ==> AmountOn(charges, key) == 0
  {
    if charges != [] {
      AmountOnMeans(charges[1..], key);
      forall c | c in charges && c.key == key ensures AmountOn(charges, key) == c.amount {
        if c != charges[0] { assert c in charges[1..]; }
      }
    }
  }

  lemma ChargedAmount(used: map<Key, nat>, charges: seq<Charge>, key: Key)
    requires DistinctKeys(charges)
    requires ChargeAll(used, Sort(charges)).Some?
    ensures var after := ChargeAll(used, Sort(charges)).value;
            && Used(after, key) == Used(used, key) + AmountOn(charges, key)
            && forall c :: c in charges && c.key == key ==> Used(after, key) <= c.limit
  {
    SortedDistinct(charges, Sort(charges));
    ChargeAllMeans(used, Sort(charges));
    AmountOnMeans(charges, key);
    if c :| c in charges && c.key == key {
      assert c in Sort(charges);
    }
  }

  lemma ChargeOne(used: map<Key, nat>, c: Charge)
    ensures ChargeAll(used, [c]) == if Used(used, c.key) + c.amount > c.limit then None else Some(used[c.key := Used(used, c.key) + c.amount])
    ensures Sort([c]) == [c]
  {
    assert Sort([]) == [];
    assert ChargeAll(used[c.key := Used(used, c.key) + c.amount], []).Some?;
  }

  lemma ReserveCharges(l: Ledger, p: Permission, r: Request, now: Time)
    requires Reserve(l, p, r, now).Ok?
    ensures var after := ChargeAll(l.used, Sort(Charges(p, r, now)));
            after.Some? && Reserve(l, p, r, now).value.used == after.value
  {
  }

  /** A granted operation charges its counters in order, and nothing else does. */
  lemma GrantedCharges(l: Ledger, op: Op)
    ensures DistinctKeys(ChargesOf(op))
    ensures Attempt(l, op).Ok? ==>
              var after := ChargeAll(l.used, Sort(ChargesOf(op)));
              after.Some? && Apply(l, op).used == after.value
  {
    if op.ReserveOp? {
      ChargesDistinct(op.permission, op.request, op.now);
      if Attempt(l, op).Ok? { ReserveCharges(l, op.permission, op.request, op.now); }
    } else if op.ChargeOp? {
      ChargeOne(l.used, ChargesOf(op)[0]);
    } else {
      assert Sort(ChargesOf(op)) == [];
    }
  }

  /** A granted operation adds its amount to each counter it names, within the limit it named. */
  lemma StepAmount(l: Ledger, op: Op, charges: seq<Charge>, key: Key)
    requires charges == ChargesOf(op)
    ensures DistinctKeys(charges)
    ensures Used(Apply(l, op).used, key) == Used(l.used, key) + if Attempt(l, op).Ok? then AmountOn(charges, key) else 0
    ensures Attempt(l, op).Ok? ==> forall c :: c in charges && c.key == key ==> Used(Apply(l, op).used, key) <= c.limit
  {
    GrantedCharges(l, op);
    var granted, after := Attempt(l, op).Ok?, Apply(l, op).used;
    if granted { ChargedAmount(l.used, charges, key); }
  }

  lemma {:induction false} UsageSplits(l: Ledger, ops: seq<Op>, key: Key, limit: nat, reserve: nat, ordinary: nat, urgent: nat)
    requires !OfScope(key.bucket) && Fixed(ops, key, limit, reserve)
    requires Used(l.used, key) == ordinary + urgent && ordinary <= Allowance(limit, reserve, false)
    ensures Used(Run(l, ops).used, key) == ordinary + urgent + Usage(l, ops, key, false) + Usage(l, ops, key, true)
    ensures ordinary + Usage(l, ops, key, false) <= Allowance(limit, reserve, false)
    decreases |ops|
  {
    if ops != [] {
      var op, next := ops[0], Apply(l, ops[0]);
      var charges := ChargesOf(op);
      StepAmount(l, op, charges, key);
      AmountOnMeans(charges, key);
      var amount := if Attempt(l, op).Ok? then AmountOn(charges, key) else 0;
      assert op in ops;
      if !Urgent(op) && amount > 0 {
        var c :| c in charges && c.key == key;
        assert c.limit == Allowance(limit, reserve, false);
      }
      UsageSplits(next, ops[1..], key, limit, reserve,
                  if Urgent(op) then ordinary else ordinary + amount, if Urgent(op) then urgent + amount else urgent);
    }
  }

  /** Ordinary work never eats the reserve. Over any run with fixed daily limits, a counter that was unused
      refuses an urgent amount only when urgent work itself, with that amount, passes min(limit, reserve). */
  lemma UrgentReserveHeld(l: Ledger, ops: seq<Op>, key: Key, limit: nat, reserve: nat, amount: nat)
    requires !OfScope(key.bucket) && Fixed(ops, key, limit, reserve) && Used(l.used, key) == 0
    requires Used(Run(l, ops).used, key) + amount > Allowance(limit, reserve, true)
    ensures Usage(l, ops, key, true) + amount > (if limit <= reserve then limit else reserve)
  {
    UsageSplits(l, ops, key, limit, reserve, 0, 0);
  }

  // ---- the repository ----

  /** The bucket loop of one reservation: each counter grows by its amount in the open transaction. */
  method TakeBudgets(used: map<Key, nat>, budgets: seq<Charge>) returns (session: Option<map<Key, nat>>)
    ensures session == ChargeAll(used, budgets)
  {
    var rows: map<Key, nat> := used;
    var i := 0;
    while i < |budgets|
      invariant i <= |budgets|
      invariant ChargeAll(used, budgets) == ChargeAll(rows, budgets[i..])
    {
      var c := budgets[i];
      assert budgets[i..][0] == c && budgets[i..][1..] == budgets[i + 1..];
      var before := if c.key in rows then rows[c.key] else 0;
      if before + c.amount > c.limit {
        return None;
      }
      rows := rows[c.key := before + c.amount];
      i := i + 1;
    }
    session := Some(rows);
  }

  class PermissionRepository {
    var scopes: map<ApprovalId, Scope>
    var used: map<Key, nat>
    var calls: seq<Call>
    var clock: Time

    constructor (now: Time)
      ensures Tables() == EmptyLedger && clock == now
    {
      scopes, used, calls, clock := map[], map[], [], now;
    }

    ghost function Tables(): Ledger
      reads this
    {
      Ledger(scopes, used, calls)
    }

    /** `reserve_provider_call`: every counter or none. */
    method ReserveProviderCall(p: Permission, r: Request) returns (res: Result<nat>)
      modifies this`scopes, this`used, this`calls
      ensures res.Ok? <==> Reserve(old(Tables()), p, r, clock).Ok?
      ensures res.Ok? ==> Tables() == Reserve(old(Tables()), p, r, clock).value && res.value == |old(calls)|
      ensures res.Err? ==> Tables() == old(Tables()) && Reserve(old(Tables()), p, r, clock) == Err(res.code)
    {
      if r.reservedTokens < 0 || r.reservedTokens > 100_000_000 {
        return Err(InvalidInput);
      }
      if r.kind == "model" && r.reservedTokens == 0 {
        return Err(InvalidInput);
      }
      var bound := Bind(scopes, p, clock);
      if bound.Err? {
        return Err(bound.code);
      }
      var session := TakeBudgets(used, Sort(Charges(p, r, clock)));
      if session.None? {
        return Err(QuotaExhausted);
      }
      var id := |calls|;
      scopes := bound.value;
      used := session.value;
      calls := calls + [Call(p.approvalId, r.kind, r.reservedTokens, false, None, None)];
      res := Ok(id);
    }

    /** `record_model_usage`: a report is stored once; an overrun blocks its scope. */
    method RecordModelUsage(id: nat, inputTokens: Option<int>, outputTokens: Option<int>) returns (res: Result<()>)
      modifies this`scopes, this`calls
      ensures res.Ok? <==> RecordUsage(old(Tables()), id, inputTokens, outputTokens).Ok?
      ensures res.Ok? ==> Tables() == RecordUsage(old(Tables()), id, inputTokens, outputTokens).value
      ensures res.Err? ==> Tables() == old(Tables()) && RecordUsage(old(Tables()), id, inputTokens, outputTokens) == Err(res.code)
    {
      if (inputTokens.Some? && !(0 <= inputTokens.value <= 100_000_000))
         || (outputTokens.Some? && !(0 <= outputTokens.value <= 100_000_000)) {
        return Err(InvalidInput);
      }
      if inputTokens.None? != outputTokens.None? {
        return Err(InvalidInput);
      }
      if id >= |calls| || calls[id].kind != "model" {
        return Err(InvalidInput);
      }
      var call := calls[id];
      if call.usageRecorded {
        if (call.inputTokens, call.outputTokens) != (inputTokens, outputTokens) {
          return Err(ReplayRejected);
        }
        return Ok(());
      }
      calls := calls[id := call.(usageRecorded := true, inputTokens := inputTokens, outputTokens := outputTokens)];
      if inputTokens.Some? && inputTokens.value + outputTokens.value > call.reservedTokens && call.approvalId in scopes {
        scopes := scopes[call.approvalId := scopes[call.approvalId].(blocked := true)];
      }
      res := Ok(());
    }

    /** `stop_c1`: an unknown scope is stored blocked, a known one must match. */
    method StopScope(p: Permission) returns (res: Result<()>)
      modifies this`scopes
      ensures res.Ok? <==> Stop(old(Tables()), p).Ok?
      ensures res.Ok? ==> Tables() == Stop(old(Tables()), p).value
      ensures res.Err? ==> Tables() == old(Tables())
    {
      if p.approvalId in scopes && scopes[p.approvalId].permission != p {
        return Err(Forbidden);
      }
      scopes := scopes[p.approvalId := Scope(p, true)];
      res := Ok(());
    }

    /** `charge_budget`: one unit of a daily counter. */
    method ChargeBudget(bucket: Bucket, limit: nat, reserve: nat, urgent: bool) returns (res: Result<nat>)
      requires !OfScope(bucket)
      modifies this`used
      ensures var spec := ChargeDaily(old(Tables()), bucket, limit, reserve, urgent, clock);
              && (res.Ok? <==> spec.Ok?)
              && (res.Ok? ==> Tables() == spec.value && res.value == Used(used, Key(DayOf(clock), bucket)))
              && (res.Err? ==> Tables() == old(Tables()) && spec == Err(res.code))
    {
      var key := Key(DayOf(clock), bucket);
      var before := if key in used then used[key] else 0;
      var available := if urgent then limit else if limit - reserve > 0 then limit - reserve else 0;
      ChargeOne(used, Charge(key, Allowance(limit, reserve, urgent), 1));
      if before >= available {
        return Err(QuotaExhausted);
      }
      used := used[key := before + 1];
      res := Ok(before + 1);
    }
  }
}
