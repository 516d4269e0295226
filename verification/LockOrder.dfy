/** Row and advisory locks of concurrent transactions: permission reservations, also those of the exercise and status
lanes, their messages and results, usage reports and stops, budget charges, assessment commits, record failures and
deferrals.

A lock is held until its transaction commits or rolls back, and a transaction that reaches a held lock
waits. Taking a lock one already holds does not wait. Distinct advisory keys hash to distinct numbers. */
module LockOrder {
  import opened Common
  import Ledger = PermissionLedger

  datatype Lock =
    | CallRow(reservationId: nat)
    | PermissionKey(approvalId: string)
    | PermissionRow(approvalId: string)
    | DeliveryRow(deliveryId: string)
    | SubjectKey(subjectId: string)
    | CallbackKey(callbackId: string)
    | UserRow(actorId: string)
    | GrantRow(grant: string)
    | BudgetKey(day: int, bucket: string)
    | RecordRow(recordId: string, revision: nat)
    | EventKey(identity: string)

  /** The two send lanes bind two approvals each and lock their delivery, one lane first and the other last; where they
      may meet, the levels say in which order. */
  datatype Lanes = Lanes(permission: string -> int, delivery: string -> int)

  function Rank(l: Lock): nat {
    match l
    case CallRow(_) => 0
    case PermissionKey(_) => 1
    case PermissionRow(_) => 1
    case DeliveryRow(_) => 1
    case SubjectKey(_) => 2
    case CallbackKey(_) => 3
    case UserRow(_) => 4
    case GrantRow(_) => 5
    case BudgetKey(_, _) => 6
    case RecordRow(_, _) => 7
    case EventKey(_) => 8
  }

  function Name(l: Lock): string {
    match l
    case CallRow(_) => ""
    case PermissionKey(id) => id
    case PermissionRow(id) => id
    case DeliveryRow(id) => id
    case SubjectKey(id) => id
    case CallbackKey(id) => id
    case UserRow(id) => id
    case GrantRow(id) => id
    case BudgetKey(_, bucket) => bucket
    case RecordRow(id, _) => id
    case EventKey(identity) => identity
  }

  /** The number compared before the name (a level, or a budget's day), and the one compared after it. */
  function Before(lanes: Lanes, l: Lock): int {
    match l
    case PermissionKey(id) => lanes.permission(id)
    case PermissionRow(id) => lanes.permission(id)
    case DeliveryRow(id) => lanes.delivery(id)
    case BudgetKey(day, _) => day
    case _ => 0
  }

  function After(l: Lock): int {
    match l
    case RecordRow(_, revision) => revision
    case CallRow(id) => id
    case PermissionRow(_) => 1
    case DeliveryRow(_) => 2
    case _ => 0
  }

  predicate Less(lanes: Lanes, a: Lock, b: Lock) {
    Rank(a) < Rank(b)
    || (Rank(a) == Rank(b)
        && (Before(lanes, a) < Before(lanes, b)
            || (Before(lanes, a) == Before(lanes, b)
                && (StringLess(Name(a), Name(b)) || (Name(a) == Name(b) && After(a) < After(b))))))
  }

  type Order = (Lock, Lock) -> bool

  /** The one global order. */
  function By(lanes: Lanes): Order { (a: Lock, b: Lock) => Less(lanes, a, b) }

  ghost predicate Linear(less: Order) {
    && (forall a, b :: less(a, b) || a == b || less(b, a))
    && (forall a, b :: less(a, b) ==> !less(b, a) && a != b)
    && (forall a, b, c :: less(a, b) && less(b, c) ==> less(a, c))
  }

  lemma LessTotal(lanes: Lanes, a: Lock, b: Lock)
    ensures Less(lanes, a, b) || a == b || Less(lanes, b, a)
    ensures !(Less(lanes, a, b) && Less(lanes, b, a)) && (Less(lanes, a, b) ==> a != b)
  {
    StringLessTotal(Name(a), Name(b));
  }

  lemma LessTrans(lanes: Lanes, a: Lock, b: Lock, c: Lock)
    requires Less(lanes, a, b) && Less(lanes, b, c)
    ensures Less(lanes, a, c)
  {
    if StringLess(Name(a), Name(b)) && StringLess(Name(b), Name(c)) { StringLessTrans(Name(a), Name(b), Name(c)); }
  }

  lemma ByLinear(lanes: Lanes)
    ensures Linear(By(lanes))
  {
    forall a, b: Lock
      ensures Less(lanes, a, b) || a == b || Less(lanes, b, a)
      ensures Less(lanes, a, b) ==> !Less(lanes, b, a) && a != b
    {
      LessTotal(lanes, a, b);
    }
    forall a, b, c: Lock | Less(lanes, a, b) && Less(lanes, b, c) ensures Less(lanes, a, c) { LessTrans(lanes, a, b, c); }
  }

  /** The order in which Python sorts the locks of one kind. */
  predicate Sorts(a: Lock, b: Lock) { Less(Lanes(_ => 0, _ => 0), a, b) }

  // ---- what each operation locks, in program order ----

  /** `Reserve` is also a lookup of either lane. */
  datatype Operation =
    | Reserve(permission: Ledger.Permission, request: Ledger.Request, now: Time)
    | ExerciseSend(delivery: string, approval: string, app: Ledger.Permission, actor: string, grant: string, request: Ledger.Request, now: Time)
    | StatusSend(app: Ledger.Permission, approval: string, delivery: string, actor: string, grant: string, request: Ledger.Request, now: Time)
    | ExerciseCreate(approval: string, appId: string, subject: string)
    | StatusCreate(appId: string, approval: string, subject: string)
    | Finish(delivery: string)
    | Acknowledge(delivery: string, callback: string)
    | Usage(call: nat, approvalId: string)
    | Stop(approvalId: string)
    | Charge(day: int, bucket: string)
    | Commit(claims: seq<Lock>, identities: seq<Lock>)
    | FailOrDefer(claims: seq<Lock>)

  /** The levels agree with the lanes: an exercise locks its delivery, then its approval, then the app's; a status
      message the other way round. */
  predicate WellFormed(lanes: Lanes, op: Operation) {
    match op
    case ExerciseSend(d, id, app, _, _, _, _) =>
      lanes.delivery(d) < lanes.permission(id) < lanes.permission(app.approvalId)
    case StatusSend(app, id, d, _, _, _, _) =>
      lanes.permission(app.approvalId) < lanes.permission(id) < lanes.delivery(d)
    case ExerciseCreate(id, app, _) => lanes.permission(id) < lanes.permission(app)
    case StatusCreate(app, id, _) => lanes.permission(app) < lanes.permission(id)
    case Commit(claims, identities) =>
      (forall c :: c in claims ==> c.RecordRow?) && (forall e :: e in identities ==> e.EventKey?)
    case FailOrDefer(claims) => forall c :: c in claims ==> c.RecordRow?
    case _ => true
  }

  function BudgetLocks(charges: seq<Ledger.Charge>): (r: seq<Lock>)
    ensures |r| == |charges|
    ensures forall i :: 0 <= i < |r| ==> r[i] == BudgetKey(charges[i].key.day, Ledger.BucketName(charges[i].key.bucket))
  {
    seq(|charges|, i requires 0 <= i < |charges| =>
      BudgetKey(charges[i].key.day, Ledger.BucketName(charges[i].key.bucket)))
  }

  function Budgets(p: Ledger.Permission, r: Ledger.Request, now: Time): seq<Lock> {
    BudgetLocks(Ledger.Sort(Ledger.Charges(p, r, now)))
  }

  /** `bind_permission`. */
  function Bind(id: string): seq<Lock> { [PermissionKey(id), PermissionRow(id)] }

  /** The locks in the order the methods first take them; sorted before every batch of one kind. A lane that binds its
      app's approval again while it reserves already holds those locks. */
  function Plan(op: Operation): seq<Lock> {
    match op
    case Reserve(p, r, now) => Bind(p.approvalId) + Budgets(p, r, now)
    case ExerciseSend(d, id, app, actor, grant, r, now) =>
      [DeliveryRow(d)] + Bind(id) + Bind(app.approvalId) + [UserRow(actor), GrantRow(grant)] + Budgets(app, r, now)
    case StatusSend(app, id, d, actor, grant, r, now) =>
      Bind(app.approvalId) + Bind(id) + [DeliveryRow(d)] + [UserRow(actor), GrantRow(grant)] + Budgets(app, r, now)
    case ExerciseCreate(id, app, subject) => Bind(id) + Bind(app) + [SubjectKey(subject)]
    case StatusCreate(app, id, subject) => Bind(app) + Bind(id) + [SubjectKey(subject)]
    case Finish(d) => [DeliveryRow(d)]
    case Acknowledge(d, callback) => [DeliveryRow(d), CallbackKey(callback)]
    case Usage(call, id) => [CallRow(call), PermissionRow(id)]
    case Stop(id) => Bind(id)
    case Charge(day, bucket) => [BudgetKey(day, bucket)]
    case Commit(claims, identities) => SortBy(Sorts, claims) + SortBy(Sorts, identities)
    case FailOrDefer(claims) => SortBy(Sorts, claims)
  }

  lemma ChargeOrderWeak()
    ensures WeakOrder((a: Ledger.Charge, b: Ledger.Charge) => Ledger.KeyLess(a.key, b.key))
  {
    StringLessWeak();
    var less := (a: Ledger.Charge, b: Ledger.Charge) => Ledger.KeyLess(a.key, b.key);
    forall a, b, c: Ledger.Charge | less(a, c) ensures less(a, b) || less(b, c) {
      var x, y, z := Ledger.BucketName(a.key.bucket), Ledger.BucketName(b.key.bucket), Ledger.BucketName(c.key.bucket);
      if StringLess(x, z) { assert StringLess(x, y) || StringLess(y, z); }
    }
    forall a, b: Ledger.Charge ensures less(a, b) ==> !less(b, a) {
      var x, y := Ledger.BucketName(a.key.bucket), Ledger.BucketName(b.key.bucket);
      assert StringLess(x, y) ==> !StringLess(y, x);
    }
  }

  lemma BudgetsOrdered(lanes: Lanes, charges: seq<Ledger.Charge>)
    ensures OrderedBy(By(lanes), BudgetLocks(Ledger.Sort(charges)))
  {
    ChargeOrderWeak();
    var less := (a: Ledger.Charge, b: Ledger.Charge) => Ledger.KeyLess(a.key, b.key);
    SortOrdered(less, charges);
    var sorted, locks := Ledger.Sort(charges), BudgetLocks(Ledger.Sort(charges));
    forall i, j | 0 <= i < j < |locks| ensures !By(lanes)(locks[j], locks[i]) {
      assert !less(sorted[j], sorted[i]);
      ChargeOrder(lanes, sorted[j], sorted[i]);
    }
  }

  lemma ChargeOrder(lanes: Lanes, a: Ledger.Charge, b: Ledger.Charge)
    ensures var x, y := BudgetKey(a.key.day, Ledger.BucketName(a.key.bucket)), BudgetKey(b.key.day, Ledger.BucketName(b.key.bucket));
            Less(lanes, x, y) <==> Ledger.KeyLess(a.key, b.key)
  {
  }

  lemma AppendOrdered(less: Order, a: seq<Lock>, b: seq<Lock>)
    requires OrderedBy(less, a) && OrderedBy(less, b)
    requires forall x, y :: x in a && y in b ==> !less(y, x)
    ensures OrderedBy(less, a + b)
  {
    forall i, j | 0 <= i < j < |a + b| ensures !less((a + b)[j], (a + b)[i]) {
      if i < |a| <= j { assert a[i] in a && b[j - |a|] in b; }
    }
  }

  lemma AppendByRank(lanes: Lanes, a: seq<Lock>, b: seq<Lock>, rank: nat)
    requires OrderedBy(By(lanes), a) && OrderedBy(By(lanes), b)
    requires (forall x :: x in a ==> Rank(x) < rank) && forall y :: y in b ==> Rank(y) >= rank
    ensures OrderedBy(By(lanes), a + b)
  {
    AppendOrdered(By(lanes), a, b);
  }

  /** A head of lower rank than the budgets. */
  lemma WithBudgets(lanes: Lanes, head: seq<Lock>, p: Ledger.Permission, r: Ledger.Request, now: Time)
    requires OrderedBy(By(lanes), head) && forall l :: l in head ==> Rank(l) < 6
    ensures OrderedBy(By(lanes), head + Budgets(p, r, now))
  {
    BudgetsOrdered(lanes, Ledger.Charges(p, r, now));
    AppendByRank(lanes, head, Budgets(p, r, now), 6);
  }

  lemma SortedLocksOrdered(lanes: Lanes, locks: seq<Lock>)
    requires (forall l :: l in locks ==> l.RecordRow?) || (forall l :: l in locks ==> l.EventKey?)
    ensures OrderedBy(By(lanes), SortBy(Sorts, locks)) && forall l :: l in SortBy(Sorts, locks) <==> l in locks
  {
    SortsWeak();
    SortOrdered(Sorts, locks);
    var sorted := SortBy(Sorts, locks);
    forall i, j | 0 <= i < j < |sorted| ensures !By(lanes)(sorted[j], sorted[i]) {
      assert sorted[i] in locks && sorted[j] in locks && !Sorts(sorted[j], sorted[i]);
      SameOrder(lanes, sorted[j], sorted[i]);
    }
  }

  /** Levels do not matter to locks of the rows and keys that are sorted. */
  lemma SameOrder(lanes: Lanes, a: Lock, b: Lock)
    requires (a.RecordRow? && b.RecordRow?) || (a.EventKey? && b.EventKey?)
    ensures Less(lanes, a, b) <==> Sorts(a, b)
  {
  }

  lemma SortsWeak()
    ensures WeakOrder(Sorts)
  {
    forall a, b: Lock ensures Sorts(a, b) ==> !Sorts(b, a) { LessTotal(Lanes(_ => 0, _ => 0), a, b); }
    forall a, b, c: Lock | Sorts(a, c) ensures Sorts(a, b) || Sorts(b, c) {
      LessTotal(Lanes(_ => 0, _ => 0), a, b);
      LessTotal(Lanes(_ => 0, _ => 0), b, c);
      if Sorts(b, a) { LessTrans(Lanes(_ => 0, _ => 0), b, a, c); }
    }
  }

  lemma CommitOrdered(lanes: Lanes, claims: seq<Lock>, identities: seq<Lock>)
    requires (forall c :: c in claims ==> c.RecordRow?) && forall e :: e in identities ==> e.EventKey?
    ensures OrderedBy(By(lanes), SortBy(Sorts, claims) + SortBy(Sorts, identities))
  {
    SortedLocksOrdered(lanes, claims);
    SortedLocksOrdered(lanes, identities);
    RowsThenKeys(lanes, SortBy(Sorts, claims), SortBy(Sorts, identities));
  }

  lemma RowsThenKeys(lanes: Lanes, rows: seq<Lock>, keys: seq<Lock>)
    requires OrderedBy(By(lanes), rows) && OrderedBy(By(lanes), keys)
    requires (forall r :: r in rows ==> r.RecordRow?) && forall k :: k in keys ==> k.EventKey?
    ensures OrderedBy(By(lanes), rows + keys)
  {
    AppendByRank(lanes, rows, keys, 8);
  }

  lemma BindOrdered(lanes: Lanes, x: string)
    ensures OrderedBy(By(lanes), Bind(x)) && forall l :: l in Bind(x) ==> Rank(l) == 1
  {
    StringLessTotal(x, x);
  }

  /** Two bound approvals, the lower level first. */
  lemma BindsOrdered(lanes: Lanes, x: string, y: string)
    requires lanes.permission(x) < lanes.permission(y)
    ensures OrderedBy(By(lanes), Bind(x) + Bind(y))
    ensures forall l :: l in Bind(x) + Bind(y) ==> Rank(l) == 1 && lanes.permission(x) <= Before(lanes, l) <= lanes.permission(y)
  {
    StringLessTotal(x, x);
    StringLessTotal(y, y);
  }

  lemma WithPeople(lanes: Lanes, head: seq<Lock>, actor: string, grant: string)
    requires OrderedBy(By(lanes), head) && forall l :: l in head ==> Rank(l) == 1
    ensures OrderedBy(By(lanes), head + [UserRow(actor), GrantRow(grant)])
    ensures forall l :: l in head + [UserRow(actor), GrantRow(grant)] ==> Rank(l) < 6
  {
    AppendByRank(lanes, head, [UserRow(actor), GrantRow(grant)], 2);
  }

  lemma ExerciseOrdered(lanes: Lanes, op: Operation)
    requires op.ExerciseSend? && WellFormed(lanes, op)
    ensures OrderedBy(By(lanes), Plan(op))
  {
    var binds, d := Bind(op.approval) + Bind(op.app.approvalId), [DeliveryRow(op.delivery)];
    BindsOrdered(lanes, op.approval, op.app.approvalId);
    AppendOrdered(By(lanes), d, binds);
    WithPeople(lanes, d + binds, op.actor, op.grant);
    var head := d + binds + [UserRow(op.actor), GrantRow(op.grant)];
    WithBudgets(lanes, head, op.app, op.request, op.now);
    assert Plan(op) == head + Budgets(op.app, op.request, op.now);
  }

  lemma StatusOrdered(lanes: Lanes, op: Operation)
    requires op.StatusSend? && WellFormed(lanes, op)
    ensures OrderedBy(By(lanes), Plan(op))
  {
    var binds, d := Bind(op.app.approvalId) + Bind(op.approval), [DeliveryRow(op.delivery)];
    BindsOrdered(lanes, op.app.approvalId, op.approval);
    AppendOrdered(By(lanes), binds, d);
    WithPeople(lanes, binds + d, op.actor, op.grant);
    var head := binds + d + [UserRow(op.actor), GrantRow(op.grant)];
    WithBudgets(lanes, head, op.app, op.request, op.now);
    assert Plan(op) == head + Budgets(op.app, op.request, op.now);
  }

  lemma CreateOrdered(lanes: Lanes, x: string, y: string, subject: string)
    requires lanes.permission(x) < lanes.permission(y)
    ensures OrderedBy(By(lanes), Bind(x) + Bind(y) + [SubjectKey(subject)])
  {
    BindsOrdered(lanes, x, y);
    AppendByRank(lanes, Bind(x) + Bind(y), [SubjectKey(subject)], 2);
  }

  /** Every operation takes its locks in the global order, whatever levels agree with the lanes. */
  lemma PlansOrdered(lanes: Lanes, op: Operation)
    requires WellFormed(lanes, op)
    ensures OrderedBy(By(lanes), Plan(op))
  {
    match op {
      case Reserve(p, r, now) =>
        BindOrdered(lanes, p.approvalId);
        WithBudgets(lanes, Bind(p.approvalId), p, r, now);
      case Stop(id) => BindOrdered(lanes, id);
      case ExerciseSend(_, _, _, _, _, _, _) => ExerciseOrdered(lanes, op);
      case StatusSend(_, _, _, _, _, _, _) => StatusOrdered(lanes, op);
      case ExerciseCreate(id, app, subject) => CreateOrdered(lanes, id, app, subject);
      case StatusCreate(app, id, subject) => CreateOrdered(lanes, app, id, subject);
      case Commit(claims, identities) => CommitOrdered(lanes, claims, identities);
      case FailOrDefer(claims) => SortedLocksOrdered(lanes, claims);
      case _ =>
    }
  }

  // ---- concurrent transactions ----

  /** A transaction part-way through its plan: it holds the first `taken` locks. */
  datatype Txn = Txn(plan: seq<Lock>, taken: nat)

  predicate Fits(t: Txn) { t.taken <= |t.plan| }

  predicate Holds(t: Txn, l: Lock)
    requires Fits(t)
  {
    l in t.plan[..t.taken]
  }

  ghost predicate Exclusive(txns: seq<Txn>) {
    && (forall i :: 0 <= i < |txns| ==> Fits(txns[i]))
    && forall i, j, l :: 0 <= i < |txns| && 0 <= j < |txns| && Holds(txns[i], l) && Holds(txns[j], l) ==> i == j
  }

  predicate Done(t: Txn) { t.taken == |t.plan| }

  /** The lock a transaction takes next. */
  function Next(t: Txn): Lock
    requires Fits(t) && !Done(t)
  {
    t.plan[t.taken]
  }

  /** Nobody else holds the lock `i` takes next. */
  ghost predicate Free(txns: seq<Txn>, i: nat)
    requires Exclusive(txns) && i < |txns| && !Done(txns[i])
  {
    forall j :: 0 <= j < |txns| && j != i ==> !Holds(txns[j], Next(txns[i]))
  }

  ghost predicate CanProceed(txns: seq<Txn>, i: nat)
    requires Exclusive(txns) && i < |txns|
  {
    Done(txns[i]) || Free(txns, i)
  }

  ghost predicate AllOrdered(less: Order, txns: seq<Txn>) { forall i :: 0 <= i < |txns| ==> OrderedBy(less, txns[i].plan) }

  ghost predicate AllWait(txns: seq<Txn>) { forall i :: 0 <= i < |txns| ==> Fits(txns[i]) && !Done(txns[i]) }

  /** An unfinished transaction whose awaited lock is not below any other's. */
  lemma {:induction false} HighestWaiter(less: Order, txns: seq<Txn>) returns (m: nat)
    requires Linear(less) && 0 < |txns| && AllWait(txns)
    ensures m < |txns|
    ensures forall i :: 0 <= i < |txns| ==> !less(Next(txns[m]), Next(txns[i]))
    decreases |txns|
  {
    var last := |txns| - 1;
    if last == 0 { return 0; }
    var k := HighestWaiter(less, txns[..last]);
    m := if less(Next(txns[k]), Next(txns[last])) then last else k;
    forall i | 0 <= i < |txns| ensures !less(Next(txns[m]), Next(txns[i])) {
      if i < last { assert txns[..last][i] == txns[i]; }
    }
  }

  /** Main result: no cyclic wait. Whatever any transactions with ordered plans hold, one of them can proceed. */
  lemma SomeoneProceeds(less: Order, txns: seq<Txn>) returns (i: nat)
    requires Linear(less) && Exclusive(txns) && AllOrdered(less, txns) && 0 < |txns|
    ensures i < |txns| && CanProceed(txns, i)
  {
    if k: nat :| k < |txns| && Done(txns[k]) { return k; }
    var m := HighestWaiter(less, txns);
    var wanted := Next(txns[m]);
    if CanProceed(txns, m) { return m; }
    var j :| 0 <= j < |txns| && j != m && Holds(txns[j], wanted);
    // The holder's next lock is not below one it holds, nor above the highest awaited: it is the one it holds.
    var h :| 0 <= h < txns[j].taken && txns[j].plan[h] == wanted;
    assert !less(Next(txns[j]), wanted) && !less(wanted, Next(txns[j]));
    i := j;
  }

  // ---- runs ----

  /** One transaction takes its next lock, or ends (commits, or is rejected part-way) and frees its locks. */
  ghost predicate Step(before: seq<Txn>, after: seq<Txn>)
    requires Exclusive(before)
  {
    exists i :: 0 <= i < |before|
      && (after == before[..i] + before[i + 1..]
          || (!Done(before[i]) && Free(before, i) && after == before[i := before[i].(taken := before[i].taken + 1)]))
  }

  /** Locks still to take, plus one for each transaction still open. */
  function Work(txns: seq<Txn>): int {
    if txns == [] then 0 else Work(txns[..|txns| - 1]) + 1 + |txns[|txns| - 1].plan| - txns[|txns| - 1].taken
  }

  lemma {:induction false} WorkSplits(txns: seq<Txn>, i: nat)
    requires i < |txns|
    ensures Work(txns) == Work(txns[..i]) + 1 + |txns[i].plan| - txns[i].taken + Work(txns[i + 1..])
  {
    if i < |txns| - 1 {
      var most := txns[..|txns| - 1];
      WorkSplits(most, i);
      assert most[..i] == txns[..i];
      assert txns[i + 1..][..|txns| - i - 2] == most[i + 1..];
    }
  }

  /** Steps keep every lock exclusive and use up work, so a set of transactions cannot run for ever;
      with `SomeoneProceeds` they never get stuck either. */
  lemma StepKeepsExclusive(before: seq<Txn>, after: seq<Txn>)
    requires Exclusive(before) && Step(before, after)
    ensures Exclusive(after) && Work(after) < Work(before)
  {
    var i :| 0 <= i < |before|
      && (after == before[..i] + before[i + 1..]
          || (!Done(before[i]) && Free(before, i) && after == before[i := before[i].(taken := before[i].taken + 1)]));
    WorkSplits(before, i);
    if after == before[..i] + before[i + 1..] {
      EndKeepsExclusive(before, i);
      WorkAppend(before[..i], before[i + 1..]);
    } else {
      TakeKeepsExclusive(before, i);
      WorkSplits(after, i);
      assert after[..i] == before[..i] && after[i + 1..] == before[i + 1..];
    }
  }

  lemma {:induction false} WorkAppend(a: seq<Txn>, b: seq<Txn>)
    ensures Work(a + b) == Work(a) + Work(b)
  {
    if b == [] {
      assert a + b == a;
    } else {
      WorkAppend(a, b[..|b| - 1]);
      assert (a + b)[..|a + b| - 1] == a + b[..|b| - 1];
    }
  }

  lemma EndKeepsExclusive(before: seq<Txn>, i: nat)
    requires Exclusive(before) && i < |before|
    ensures Exclusive(before[..i] + before[i + 1..])
  {
    var after := before[..i] + before[i + 1..];
    forall k | 0 <= k < |after| ensures after[k] == before[if k < i then k else k + 1] {}
    forall a, b, l | 0 <= a < |after| && 0 <= b < |after| && Holds(after[a], l) && Holds(after[b], l) ensures a == b {
      var a', b' := if a < i then a else a + 1, if b < i then b else b + 1;
      assert Holds(before[a'], l) && Holds(before[b'], l);
    }
  }

  lemma TakeKeepsExclusive(before: seq<Txn>, i: nat)
    requires Exclusive(before) && i < |before| && !Done(before[i]) && Free(before, i)
    ensures Exclusive(before[i := before[i].(taken := before[i].taken + 1)])
  {
    var t := before[i].(taken := before[i].taken + 1);
    var after := before[i := t];
    assert t.plan[..t.taken] == before[i].plan[..before[i].taken] + [before[i].plan[before[i].taken]];
    forall a, b, l | 0 <= a < |after| && 0 <= b < |after| && Holds(after[a], l) && Holds(after[b], l) ensures a == b {
    }
  }

  /** The transactions can all end within `steps` steps. */
  ghost predicate Finishes(txns: seq<Txn>, steps: nat)
    requires Exclusive(txns)
    decreases steps
  {
    txns == [] || (steps > 0 && exists after :: Step(txns, after) && Exclusive(after) && Finishes(after, steps - 1))
  }

  lemma {:induction false} WorkPositive(txns: seq<Txn>)
    requires forall i :: 0 <= i < |txns| ==> Fits(txns[i])
    ensures Work(txns) >= |txns|
  {
    if txns != [] { WorkPositive(txns[..|txns| - 1]); }
  }

  lemma PlansStay(less: Order, txns: seq<Txn>, i: nat)
    requires AllOrdered(less, txns) && i < |txns|
    ensures AllOrdered(less, txns[..i] + txns[i + 1..]) && AllOrdered(less, txns[i := txns[i].(taken := txns[i].taken + 1)])
  {
  }

  lemma NextStep(less: Order, txns: seq<Txn>) returns (after: seq<Txn>)
    requires Linear(less) && Exclusive(txns) && AllOrdered(less, txns) && txns != []
    ensures Step(txns, after) && Exclusive(after) && AllOrdered(less, after) && Work(after) < Work(txns)
  {
    var i := SomeoneProceeds(less, txns);
    after := if Done(txns[i]) then txns[..i] + txns[i + 1..] else txns[i := txns[i].(taken := txns[i].taken + 1)];
    StepKeepsExclusive(txns, after);
    PlansStay(less, txns, i);
  }

  lemma {:induction false} AllFinish(less: Order, txns: seq<Txn>, steps: nat)
    requires Linear(less) && Exclusive(txns) && AllOrdered(less, txns) && Work(txns) <= steps
    ensures Finishes(txns, steps)
    decreases steps
  {
    WorkPositive(txns);
    if txns != [] {
      var after := NextStep(less, txns);
      AllFinish(less, after, steps - 1);
    }
  }

  function Start(ops: seq<Operation>): seq<Txn> {
    seq(|ops|, i requires 0 <= i < |ops| => Txn(Plan(ops[i]), 0))
  }

  /** Any operations started together can all end, with no lock ever awaited in a cycle. */
  lemma OperationsFinish(lanes: Lanes, ops: seq<Operation>)
    requires forall op :: op in ops ==> WellFormed(lanes, op)
    ensures Exclusive(Start(ops)) && exists steps :: Finishes(Start(ops), steps)
  {
    forall i | 0 <= i < |ops| ensures OrderedBy(By(lanes), Start(ops)[i].plan) {
      assert ops[i] in ops;
      PlansOrdered(lanes, ops[i]);
    }
    ByLinear(lanes);
    WorkPositive(Start(ops));
    AllFinish(By(lanes), Start(ops), Work(Start(ops)));
  }

  // ---- when the two send lanes can wait for each other ----

  ghost predicate Deadlocked(txns: seq<Txn>) { Exclusive(txns) && txns != [] && forall i :: 0 <= i < |txns| ==> !CanProceed(txns, i) }

  /** A run of transactions, step by step. */
  ghost predicate Path(states: seq<seq<Txn>>) {
    && states != [] && (forall k :: 0 <= k < |states| ==> Exclusive(states[k]))
    && forall k :: 0 <= k < |states| - 1 ==> Step(states[k], states[k + 1])
  }

  function Pair(s: seq<Lock>, i: nat, t: seq<Lock>, j: nat): seq<Txn> { [Txn(s, i), Txn(t, j)] }

  predicate Apart(s: seq<Lock>, t: seq<Lock>) { forall l :: l in s ==> l !in t }

  lemma PairExclusive(s: seq<Lock>, i: nat, t: seq<Lock>, j: nat)
    requires i <= |s| && j <= |t|
    ensures Exclusive(Pair(s, i, t, j)) <==> Apart(s[..i], t[..j])
  {
    var txns := Pair(s, i, t, j);
    assert txns[0] == Txn(s, i) && txns[1] == Txn(t, j);
    if l :| l in s[..i] && l in t[..j] { assert Holds(txns[0], l) && Holds(txns[1], l); }
  }

  lemma FirstFree(s: seq<Lock>, i: nat, t: seq<Lock>, j: nat)
    requires i < |s| && j <= |t| && Exclusive(Pair(s, i, t, j))
    ensures Free(Pair(s, i, t, j), 0) <==> s[i] !in t[..j]
  {
    var txns := Pair(s, i, t, j);
    assert Next(txns[0]) == s[i] && (Holds(txns[1], s[i]) <==> s[i] in t[..j]);
  }

  lemma SecondFree(s: seq<Lock>, i: nat, t: seq<Lock>, j: nat)
    requires i <= |s| && j < |t| && Exclusive(Pair(s, i, t, j))
    ensures Free(Pair(s, i, t, j), 1) <==> t[j] !in s[..i]
  {
    var txns := Pair(s, i, t, j);
    assert Next(txns[1]) == t[j] && (Holds(txns[0], t[j]) <==> t[j] in s[..i]);
  }

  lemma FirstTakes(s: seq<Lock>, i: nat, t: seq<Lock>, j: nat)
    requires i < |s| && j <= |t| && Exclusive(Pair(s, i, t, j)) && s[i] !in t[..j]
    ensures Step(Pair(s, i, t, j), Pair(s, i + 1, t, j))
  {
    FirstFree(s, i, t, j);
    var now := Pair(s, i, t, j);
    assert Pair(s, i + 1, t, j) == now[0 := now[0].(taken := now[0].taken + 1)];
  }

  lemma SecondTakes(s: seq<Lock>, i: nat, t: seq<Lock>, j: nat)
    requires i <= |s| && j < |t| && Exclusive(Pair(s, i, t, j)) && t[j] !in s[..i]
    ensures Step(Pair(s, i, t, j), Pair(s, i, t, j + 1))
  {
    SecondFree(s, i, t, j);
    var now := Pair(s, i, t, j);
    assert Pair(s, i, t, j + 1) == now[1 := now[1].(taken := now[1].taken + 1)];
  }

  lemma ApartBefore(s: seq<Lock>, i: nat, t: seq<Lock>, j: nat, a: nat, b: nat)
    requires a <= i <= |s| && b <= j <= |t| && Apart(s[..i], t[..j])
    ensures Apart(s[..a], t[..b]) && (a < i ==> s[a] !in t[..b]) && (b < j ==> t[b] !in s[..a])
  {
    forall l | l in s[..a] ensures l in s[..i] { var k :| 0 <= k < a && s[k] == l; assert s[..i][k] == l; }
    forall l | l in t[..b] ensures l in t[..j] { var k :| 0 <= k < b && t[k] == l; assert t[..j][k] == l; }
    if a < i { assert s[..i][a] == s[a]; }
    if b < j { assert t[..j][b] == t[b]; }
  }

  /** The first takes its locks, then the second. */
  function Walk(s: seq<Lock>, i: nat, t: seq<Lock>, j: nat): (r: seq<seq<Txn>>)
    ensures |r| == i + j + 1 && r[0] == Pair(s, 0, t, 0) && r[i + j] == Pair(s, i, t, j)
    ensures forall k :: 0 <= k <= i + j ==> r[k] == if k <= i then Pair(s, k, t, 0) else Pair(s, i, t, k - i)
  {
    seq(i + j + 1, k requires 0 <= k <= i + j => if k <= i then Pair(s, k, t, 0) else Pair(s, i, t, k - i))
  }

  lemma StepAt(s: seq<Lock>, i: nat, t: seq<Lock>, j: nat, a: nat, b: nat)
    requires a <= i <= |s| && b <= j <= |t| && Apart(s[..i], t[..j])
    ensures Exclusive(Pair(s, a, t, b))
    ensures a < i ==> Step(Pair(s, a, t, b), Pair(s, a + 1, t, b))
    ensures b < j ==> Step(Pair(s, a, t, b), Pair(s, a, t, b + 1))
  {
    ApartBefore(s, i, t, j, a, b);
    PairExclusive(s, a, t, b);
    if a < i { FirstTakes(s, a, t, b); }
    if b < j { SecondTakes(s, a, t, b); }
  }

  lemma WalkStep(s: seq<Lock>, i: nat, t: seq<Lock>, j: nat, k: nat)
    requires i <= |s| && j <= |t| && Apart(s[..i], t[..j]) && k <= i + j
    ensures Exclusive(Walk(s, i, t, j)[k]) && (k < i + j ==> Step(Walk(s, i, t, j)[k], Walk(s, i, t, j)[k + 1]))
  {
    if k <= i { StepAt(s, i, t, j, k, 0); } else { StepAt(s, i, t, j, i, k - i); }
  }

  /** Any exclusive pair of transactions can come about. */
  lemma PairReached(s: seq<Lock>, i: nat, t: seq<Lock>, j: nat)
    requires i <= |s| && j <= |t| && Apart(s[..i], t[..j])
    ensures Path(Walk(s, i, t, j))
  {
    forall k | 0 <= k <= i + j
      ensures Exclusive(Walk(s, i, t, j)[k]) && (k < i + j ==> Step(Walk(s, i, t, j)[k], Walk(s, i, t, j)[k + 1]))
    {
      WalkStep(s, i, t, j, k);
    }
  }

  lemma Stuck(s: seq<Lock>, i: nat, t: seq<Lock>, j: nat)
    requires i < |s| && j < |t| && Apart(s[..i], t[..j]) && s[i] in t[..j] && t[j] in s[..i]
    ensures Deadlocked(Pair(s, i, t, j))
  {
    PairExclusive(s, i, t, j);
    FirstFree(s, i, t, j);
    SecondFree(s, i, t, j);
    BothWait(Pair(s, i, t, j));
  }

  lemma BothWait(txns: seq<Txn>)
    requires |txns| == 2 && Exclusive(txns) && !Done(txns[0]) && !Done(txns[1]) && !Free(txns, 0) && !Free(txns, 1)
    ensures Deadlocked(txns)
  {
    forall i | 0 <= i < |txns| ensures !CanProceed(txns, i) { assert i == 0 || i == 1; }
  }

  /** An approval bound by both. */
  predicate Shares(e: Operation, t: Operation)
    requires e.ExerciseSend? && t.StatusSend?
  {
    || e.approval == t.approval || e.approval == t.app.approvalId
    || e.app.approvalId == t.approval || e.app.approvalId == t.app.approvalId
  }

  /** An exercise and a status send share both approvals in their roles, or the delivery and an approval. */
  predicate Crossed(e: Operation, t: Operation)
    requires e.ExerciseSend? && t.StatusSend?
  {
    (e.approval == t.approval && e.app.approvalId == t.app.approvalId) || (e.delivery == t.delivery && Shares(e, t))
  }

  /** Levels for two sends that are not crossed. */
  function Level(e: Operation, t: Operation, id: string): int
    requires e.ExerciseSend? && t.StatusSend?
  {
    var p, a, q, b := e.approval, e.app.approvalId, t.approval, t.app.approvalId;
    if !Shares(e, t) then if id == p then 1 else if id == a then 2 else if id == q then -1 else if id == b then -2 else 0
    else if p == q then if id == b then 0 else if id == p then 1 else 2
    else if a == b then if id == p then 0 else if id == a then 1 else 2
    else if id == p || id == b then 0 else 1
  }

  lemma UncrossedLevels(e: Operation, t: Operation) returns (lanes: Lanes)
    requires e.ExerciseSend? && t.StatusSend? && !Crossed(e, t)
    requires e.approval != e.app.approvalId && t.approval != t.app.approvalId
    ensures WellFormed(lanes, e) && WellFormed(lanes, t)
  {
    var apart := !Shares(e, t);
    lanes := Lanes(
      id => Level(e, t, id), d => if apart then 0 else if d == e.delivery then -10 else if d == t.delivery then 10 else 0);
  }

  /** Some run of two transactions with these plans ends with each waiting for the other. */
  ghost predicate CanMeet(s: seq<Lock>, t: seq<Lock>) {
    exists path, i: nat, j: nat ::
      Path(path) && path[0] == Pair(s, 0, t, 0) && path[|path| - 1] == Pair(s, i, t, j) && Deadlocked(Pair(s, i, t, j))
  }

  lemma OrderedNeverMeet(less: Order, s: seq<Lock>, t: seq<Lock>)
    requires Linear(less) && OrderedBy(less, s) && OrderedBy(less, t)
    ensures !CanMeet(s, t)
  {
    forall i: nat, j: nat ensures !Deadlocked(Pair(s, i, t, j)) {
      if Exclusive(Pair(s, i, t, j)) { var k := SomeoneProceeds(less, Pair(s, i, t, j)); }
    }
  }

  lemma UncrossedNeverMeet(e: Operation, t: Operation)
    requires e.ExerciseSend? && t.StatusSend? && !Crossed(e, t)
    requires e.approval != e.app.approvalId && t.approval != t.app.approvalId
    ensures !CanMeet(Plan(e), Plan(t))
  {
    var less := UncrossedOrder(e, t);
    OrderedNeverMeet(less, Plan(e), Plan(t));
  }

  /** Exactly when an exercise send and a status send, started together, can come to wait for each other. */
  lemma LanesWaitIffCrossed(e: Operation, t: Operation)
    requires e.ExerciseSend? && t.StatusSend?
    requires e.approval != e.app.approvalId && t.approval != t.app.approvalId
    ensures CanMeet(Plan(e), Plan(t)) <==> Crossed(e, t)
  {
    if Crossed(e, t) { CrossedMeet(e, t); } else { UncrossedNeverMeet(e, t); }
  }

  lemma UncrossedOrder(e: Operation, t: Operation) returns (less: Order)
    requires e.ExerciseSend? && t.StatusSend? && !Crossed(e, t)
    requires e.approval != e.app.approvalId && t.approval != t.app.approvalId
    ensures Linear(less) && OrderedBy(less, Plan(e)) && OrderedBy(less, Plan(t))
  {
    var lanes := UncrossedLevels(e, t);
    PlansOrdered(lanes, e);
    PlansOrdered(lanes, t);
    ByLinear(lanes);
    less := By(lanes);
  }

  function ExerciseHead(e: Operation): seq<Lock>
    requires e.ExerciseSend?
  {
    var p, a := e.approval, e.app.approvalId;
    [DeliveryRow(e.delivery), PermissionKey(p), PermissionRow(p), PermissionKey(a), PermissionRow(a)]
  }

  function StatusHead(t: Operation): seq<Lock>
    requires t.StatusSend?
  {
    var q, b := t.approval, t.app.approvalId;
    [PermissionKey(b), PermissionRow(b), PermissionKey(q), PermissionRow(q), DeliveryRow(t.delivery)]
  }

  lemma Heads(e: Operation, t: Operation)
    requires e.ExerciseSend? && t.StatusSend?
    ensures ExerciseHead(e) <= Plan(e) && StatusHead(t) <= Plan(t)
  {
    var p, a, q, b := e.approval, e.app.approvalId, t.approval, t.app.approvalId;
    HeadStays([DeliveryRow(e.delivery)] + Bind(p) + Bind(a), [UserRow(e.actor), GrantRow(e.grant)], Budgets(e.app, e.request, e.now));
    HeadStays(Bind(b) + Bind(q) + [DeliveryRow(t.delivery)], [UserRow(t.actor), GrantRow(t.grant)], Budgets(t.app, t.request, t.now));
    FiveLocks(e.delivery, p, a);
    FiveLocks(t.delivery, b, q);
  }

  lemma FiveLocks(d: string, x: string, y: string)
    ensures [DeliveryRow(d)] + Bind(x) + Bind(y)
      == [DeliveryRow(d), PermissionKey(x), PermissionRow(x), PermissionKey(y), PermissionRow(y)]
    ensures Bind(x) + Bind(y) + [DeliveryRow(d)]
      == [PermissionKey(x), PermissionRow(x), PermissionKey(y), PermissionRow(y), DeliveryRow(d)]
  {
  }

  lemma HeadStays(head: seq<Lock>, people: seq<Lock>, budgets: seq<Lock>)
    ensures head <= head + people + budgets
  {
  }

  /** Two starts of plans after which each wants what the other holds. */
  predicate Block(s: seq<Lock>, i: nat, t: seq<Lock>, j: nat) {
    i < |s| && j < |t| && Apart(s[..i], t[..j]) && s[i] in t[..j] && t[j] in s[..i]
  }

  lemma CrossedHeads(e: Operation, t: Operation)
    requires e.ExerciseSend? && t.StatusSend? && Crossed(e, t)
    requires e.approval != e.app.approvalId && t.approval != t.app.approvalId
    ensures exists i: nat, j: nat :: Block(ExerciseHead(e), i, StatusHead(t), j)
  {
    var p, a, q, b := e.approval, e.app.approvalId, t.approval, t.app.approvalId;
    var s, u := ExerciseHead(e), StatusHead(t);
    assert u[..4] == [PermissionKey(b), PermissionRow(b), PermissionKey(q), PermissionRow(q)];
    assert u[..2] == [PermissionKey(b), PermissionRow(b)] && s[..1] == [DeliveryRow(e.delivery)];
    assert s[..3] == [DeliveryRow(e.delivery), PermissionKey(p), PermissionRow(p)];
    if e.delivery != t.delivery {
      assert Block(s, 3, u, 2);
    } else if p == q || p == b {
      assert Block(s, 1, u, 4);
    } else {
      assert Block(s, 3, u, 4);
    }
  }

  lemma HeadsMeet(plan: seq<Lock>, s: seq<Lock>, other: seq<Lock>, t: seq<Lock>)
    requires s <= plan && t <= other && exists i: nat, j: nat :: Block(s, i, t, j)
    ensures CanMeet(plan, other)
  {
    var i: nat, j: nat :| Block(s, i, t, j);
    assert plan[..i] == s[..i] && other[..j] == t[..j];
    Stuck(plan, i, other, j);
    PairReached(plan, i, other, j);
    assert Walk(plan, i, other, j)[i + j] == Pair(plan, i, other, j);
  }

  lemma CrossedMeet(e: Operation, t: Operation)
    requires e.ExerciseSend? && t.StatusSend? && Crossed(e, t)
    requires e.approval != e.app.approvalId && t.approval != t.app.approvalId
    ensures CanMeet(Plan(e), Plan(t))
  {
    Heads(e, t);
    CrossedHeads(e, t);
    HeadsMeet(Plan(e), ExerciseHead(e), Plan(t), StatusHead(t));
  }
}
