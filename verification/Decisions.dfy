module Decisions {
  /** Optimistic versioning of event families (`storage/decisions.py`) with the intents each version creates.

  `fingerprint` is injective, so an identity key and a decision hash are represented by what they were taken of. */

  import opened Common
  import opened Contracts
  import opened Notifications

  datatype Identity = Identity(namespace: string, family: string, scope: Scope)

  datatype Candidate = Candidate(family: string, decision: Decision, assessedAt: Time, summary: string)

  /** A candidate with what its part of the transaction reads. */
  datatype Proposal = Proposal(candidate: Candidate, env: Env, now: Time)

  datatype Head = Head(subject: SubjectId, revision: nat)

  datatype Version = Version(decision: Decision, supersedes: Option<nat>, assessedAt: Time, summary: string)

  datatype Db = Db(
    records: map<RecordKey, SourceRecord>, heads: map<Identity, Head>, versions: map<(SubjectId, nat), Version>,
    intents: seq<Intent>, grants: seq<Grant>, nextId: SubjectId)

  function IdentityOf(c: Candidate, namespace: string): Identity { Identity(namespace, c.family, c.decision.scope) }

  function Refs(evidence: seq<Ref>): set<RecordKey> { set ref | ref in evidence :: RefKey(ref) }

  // ---- the checks of one candidate ----

  function Publishers(origins: seq<OriginGroup>, recordId: string): seq<string> {
    if origins == [] then []
    else (if recordId in origins[0].recordIds then [origins[0].publisher] else []) + Publishers(origins[1..], recordId)
  }

  predicate RefOk(records: map<RecordKey, SourceRecord>, d: Decision, ref: Ref) {
    && RefKey(ref) in records
    && records[RefKey(ref)].scope == d.scope
    && FieldText(records[RefKey(ref)], ref.field).Some?
    && Within(ref.excerpt, FieldText(records[RefKey(ref)], ref.field).value)
    && Publishers(d.origins, ref.recordId) == [records[RefKey(ref)].publisher]
  }

  /** `validate_evidence` for an event. */
  predicate EvidenceOk(records: map<RecordKey, SourceRecord>, d: Decision) {
    forall i :: 0 <= i < |d.evidence| ==> RefOk(records, d, d.evidence[i])
  }

  /** The `prior_refs` dictionary: the last reference to a record wins. */
  function LastRevision(evidence: seq<Ref>, recordId: string): Option<nat> {
    if evidence == [] then None
    else
      var last := evidence[|evidence| - 1];
      if last.recordId == recordId then Some(last.revision) else LastRevision(evidence[..|evidence| - 1], recordId)
  }

  predicate Regresses(previous: seq<Ref>, next: seq<Ref>) {
    exists ref :: ref in next && LastRevision(previous, ref.recordId).Some?
      && ref.revision < LastRevision(previous, ref.recordId).value
  }

  /** No record both cite moves to an older revision. */
  predicate Monotone(previous: seq<Ref>, next: seq<Ref>) {
    forall a, b :: a in previous && b in next && a.recordId == b.recordId ==> a.revision <= b.revision
  }

  /** The last citation of each record is its newest. */
  predicate NewestLast(evidence: seq<Ref>) {
    forall a :: a in evidence ==> LastRevision(evidence, a.recordId).Some? && a.revision <= LastRevision(evidence, a.recordId).value
  }

  lemma {:induction false} LastRevisionCited(evidence: seq<Ref>, recordId: string)
    ensures LastRevision(evidence, recordId).Some? <==> exists a :: a in evidence && a.recordId == recordId
    ensures LastRevision(evidence, recordId).Some? ==>
              exists a :: a in evidence && a.recordId == recordId && a.revision == LastRevision(evidence, recordId).value
  {
    if evidence != [] {
      LastRevisionCited(evidence[..|evidence| - 1], recordId);
      assert forall a :: a in evidence <==> a in evidence[..|evidence| - 1] || a == evidence[|evidence| - 1];
    }
  }

  /** Exactly when the guard protects every citation of the previous version: when each record's last citation
      there is its newest. Citing each record once is enough. */
  lemma GuardExact(previous: seq<Ref>)
    ensures NewestLast(previous) <==> forall next: seq<Ref> :: !Regresses(previous, next) ==> Monotone(previous, next)
  {
    if NewestLast(previous) {
      forall next: seq<Ref> | !Regresses(previous, next) ensures Monotone(previous, next) {}
    } else {
      var a :| a in previous && !(LastRevision(previous, a.recordId).Some?
        && a.revision <= LastRevision(previous, a.recordId).value);
      LastRevisionCited(previous, a.recordId);
      var b :| b in previous && b.recordId == a.recordId && b.revision == LastRevision(previous, a.recordId).value;
      assert b in [b];
      assert !Regresses(previous, [b]) && !Monotone(previous, [b]);
    }
  }

  lemma {:induction false} CitedOnce(evidence: seq<Ref>)
    requires forall a, b :: a in evidence && b in evidence && a.recordId == b.recordId ==> a.revision == b.revision
    ensures NewestLast(evidence)
  {
    forall a | a in evidence
      ensures LastRevision(evidence, a.recordId).Some? && a.revision <= LastRevision(evidence, a.recordId).value
    {
      LastRevisionCited(evidence, a.recordId);
    }
  }

  /** A previous version that cites a record at revision 2 and then at 1 lets the next one cite revision 1. */
  lemma OlderAfterNewer(recordId: string, f: Field, text: string)
    ensures var previous := [Ref(recordId, 2, f, text), Ref(recordId, 1, f, text)];
            var next := [Ref(recordId, 1, f, text)];
            !Regresses(previous, next) && !Monotone(previous, next)
  {
    var previous := [Ref(recordId, 2, f, text), Ref(recordId, 1, f, text)];
    assert previous[0] in previous && Ref(recordId, 1, f, text) in [Ref(recordId, 1, f, text)];
  }

  // ---- one candidate ----

  function KindOf(revision: nat, d: Decision, previous: Option<Version>): Kind {
    if d.status.Corrected? || d.status.Conflicting? then Correction
    else if d.status.Withdrawn? then Withdrawal
    else if previous.Some? && previous.value.decision.assertion == Occurred && d.assertion != Occurred then Correction
    else if revision == 1 then FirstReport
    else Update
  }

  function HeadOf(db: Db, identity: Identity): Option<Head> {
    if identity in db.heads then Some(db.heads[identity]) else None
  }

  function Previous(db: Db, identity: Identity): Option<Version> {
    if identity in db.heads && (db.heads[identity].subject, db.heads[identity].revision) in db.versions
    then Some(db.versions[(db.heads[identity].subject, db.heads[identity].revision)])
    else None
  }

  /** The head a new version of this family gets. */
  function NextHead(db: Db, identity: Identity): Head {
    if identity in db.heads then Head(db.heads[identity].subject, db.heads[identity].revision + 1) else Head(db.nextId, 1)
  }

  function NewVersion(c: Candidate, revision: nat): Version {
    Version(c.decision, if revision > 1 then Some(revision - 1) else None, c.assessedAt, c.summary)
  }

  /** `_store_version` with `create_notifications`. */
  function Store(db: Db, identity: Identity, p: Proposal): Result<Db> {
    var c, head := p.candidate, NextHead(db, identity);
    var kind := KindOf(head.revision, c.decision, Previous(db, identity));
    var prior := if Follows(kind) then Prior(db.intents, head.subject, head.revision) else {};
    var intents := Notify(db.intents, head.subject, head.revision, c.decision, kind, p.env, prior, p.env.users);
    if intents.Err? then Err(intents.code)
    else Ok(Db(
      db.records, db.heads[identity := head], db.versions[(head.subject, head.revision) := NewVersion(c, head.revision)],
      intents.value, db.grants + GrantsFor(head.subject, head.revision, c.decision, p.env, p.now, p.env.users),
      if identity in db.heads then db.nextId else db.nextId + 1))
  }

  /** A candidate that would regress, or repeats the head's decision, is answered with the head. */
  predicate Settled(db: Db, c: Candidate, identity: Identity) {
    var previous := Previous(db, identity);
    previous.Some? && (Regresses(previous.value.decision.evidence, c.decision.evidence) || previous.value.decision == c.decision)
  }

  function CommitOne(db: Db, p: Proposal, namespace: string, allowed: set<RecordKey>): Result<Db> {
    var c, identity := p.candidate, IdentityOf(p.candidate, namespace);
    if !(Refs(c.decision.evidence) <= allowed) || !EvidenceOk(db.records, c.decision) then Err(InvalidOutput)
    else if Settled(db, c, identity) then Ok(db)
    else Store(db, identity, p)
  }

  // ---- snapshots ----

  /** `records`: the evidence of the second assessment, the claims' records first. */
  datatype Snapshot = Snapshot(
    heads: map<Identity, Option<Head>>, families: map<Identity, set<RecordKey>>, records: seq<RecordKey>)

  function AddRefs(keys: seq<RecordKey>, evidence: seq<Ref>): seq<RecordKey>
    decreases |evidence|
  {
    if evidence == [] then keys
    else
      var key := RefKey(evidence[0]);
      AddRefs(if key in keys then keys else keys + [key], evidence[1..])
  }

  function Size(records: map<RecordKey, SourceRecord>, keys: seq<RecordKey>): nat
    decreases |keys|
  {
    if keys == [] then 0
    else
      (if keys[0] in records then |records[keys[0]].title| + |records[keys[0]].excerpt| else 0) + Size(records, keys[1..])
  }

  function FamilyRefs(db: Db, c: Candidate, identity: Identity): set<RecordKey> {
    Refs(c.decision.evidence) + if Previous(db, identity).Some? then Refs(Previous(db, identity).value.decision.evidence) else {}
  }

  function Prepared(db: Db, c: Candidate, identity: Identity, s: Snapshot): Snapshot {
    Snapshot(
      s.heads[identity := HeadOf(db, identity)], s.families[identity := FamilyRefs(db, c, identity)],
      if Previous(db, identity).Some? then AddRefs(s.records, Previous(db, identity).value.decision.evidence) else s.records)
  }

  function Prepare(db: Db, claimed: set<RecordKey>, cs: seq<Candidate>, namespace: string, s: Snapshot): Result<Snapshot>
    decreases |cs|
  {
    if cs == [] then Ok(s)
    else
      var c, identity := cs[0], IdentityOf(cs[0], namespace);
      if identity in s.heads || !(Refs(c.decision.evidence) <= claimed) || !EvidenceOk(db.records, c.decision) then
        Err(InvalidOutput)
      else
        var next := Prepared(db, c, identity, s);
        if |next.records| > 64 || Size(db.records, next.records) > 100_000 then Err(InvalidInput)
        else Prepare(db, claimed, cs[1..], namespace, next)
  }

  /** `prepare_assessment`. */
  function StartPrepare(db: Db, claims: seq<RecordKey>, cs: seq<Candidate>, namespace: string): Result<Snapshot> {
    Prepare(db, (set k | k in claims), cs, namespace, Snapshot(map[], map[], claims))
  }

  lemma {:induction false} PreparedHeads(db: Db, claimed: set<RecordKey>, cs: seq<Candidate>, namespace: string, s: Snapshot)
    requires Prepare(db, claimed, cs, namespace, s).Ok?
    requires s.heads.Keys == s.families.Keys
    ensures var out := Prepare(db, claimed, cs, namespace, s).value;
            && out.heads.Keys == out.families.Keys
            && (forall i :: i in s.heads ==> i in out.heads && out.heads[i] == s.heads[i] && out.families[i] == s.families[i])
            && forall i :: i in out.heads && i !in s.heads ==>
                 && out.heads[i] == HeadOf(db, i)
                 && exists c :: c in cs && IdentityOf(c, namespace) == i && Refs(c.decision.evidence) <= claimed
                      && out.families[i] == FamilyRefs(db, c, i)
    decreases |cs|
  {
    if cs != [] {
      var c, identity := cs[0], IdentityOf(cs[0], namespace);
      var next := Prepared(db, c, identity, s);
      PreparedHeads(db, claimed, cs[1..], namespace, next);
      var out := Prepare(db, claimed, cs, namespace, s).value;
      assert out == Prepare(db, claimed, cs[1..], namespace, next).value && identity !in s.heads;
      assert out.heads[identity] == HeadOf(db, identity) && out.families[identity] == FamilyRefs(db, c, identity);
    }
  }

  // ---- one transaction ----

  datatype Batch = Batch(
    proposals: seq<Proposal>, namespace: string, claimsLive: bool, inputs: set<RecordKey>, snapshot: Option<Snapshot>)

  function Ordered(ps: seq<Proposal>): seq<Proposal> {
    SortBy((a: Proposal, b: Proposal) => StringLess(a.candidate.family, b.candidate.family), ps)
  }

  predicate OneFamilyEach(ps: seq<Proposal>) {
    forall i, j :: 0 <= i < j < |ps| ==> ps[i].candidate.family != ps[j].candidate.family
  }

  function Identities(ps: seq<Proposal>, namespace: string): set<Identity> {
    set p | p in ps :: IdentityOf(p.candidate, namespace)
  }

  function Allowed(b: Batch, identity: Identity): set<RecordKey> {
    if b.snapshot.None? then b.inputs
    else if identity in b.snapshot.value.families then b.snapshot.value.families[identity] else {}
  }

  predicate HeadsHold(db: Db, s: Snapshot) {
    forall identity :: identity in s.heads ==> s.heads[identity] == HeadOf(db, identity)
  }

  function CommitAll(db: Db, b: Batch, ps: seq<Proposal>): Result<Db>
    decreases |ps|
  {
    if ps == [] then Ok(db)
    else
      var next := CommitOne(db, ps[0], b.namespace, Allowed(b, IdentityOf(ps[0].candidate, b.namespace)));
      if next.Err? then next else CommitAll(next.value, b, ps[1..])
  }

  /** `commit_assessments`; its claims are locked by the record table (`claimsLive`). */
  function Commit(db: Db, b: Batch): Result<Db> {
    if !b.claimsLive then Err(RevisionMismatch)
    else if !OneFamilyEach(Ordered(b.proposals)) then Err(InvalidOutput)
    else if b.snapshot.Some? && Identities(b.proposals, b.namespace) != b.snapshot.value.heads.Keys then Err(InvalidOutput)
    else if b.snapshot.Some? && !HeadsHold(db, b.snapshot.value) then Err(RevisionMismatch)
    else CommitAll(db, b, Ordered(b.proposals))
  }

  // ---- runs ----

  datatype Op =
    | CommitOp(batch: Batch)
    | RemindOp(reminder: ReminderEnv)
    | IngestOp(record: SourceRecord)

  function Heads(db: Db): set<(SubjectId, nat)> { set i | i in db.heads :: (db.heads[i].subject, db.heads[i].revision) }

  function Attempt(db: Db, op: Op): Result<Db> {
    match op
    case CommitOp(batch) => Commit(db, batch)
    case RemindOp(reminder) =>
      var intents := Remind(db.intents, Heads(db), db.grants, reminder);
      if intents.Err? then Err(intents.code) else Ok(db.(intents := intents.value))
    case IngestOp(r) =>
      if KeyOf(r) in db.records && db.records[KeyOf(r)] != r then Err(InvalidInput)
      else Ok(db.(records := db.records[KeyOf(r) := r]))
  }

  /** A rejected transaction changes nothing. */
  function Apply(db: Db, op: Op): Db { if Attempt(db, op).Ok? then Attempt(db, op).value else db }

  function Run(db: Db, ops: seq<Op>): Db
    decreases |ops|
  {
    if ops == [] then db else Run(Apply(db, ops[0]), ops[1..])
  }

  const EmptyDb := Db(map[], map[], map[], [], [], 0)

  // ---- invariants ----

  ghost predicate HeadsOk(db: Db) {
    && (forall i :: i in db.heads ==> db.heads[i].subject < db.nextId && db.heads[i].revision >= 1)
    && (forall i, j :: i in db.heads && j in db.heads && i != j ==> db.heads[i].subject != db.heads[j].subject)
    && (forall i, r :: i in db.heads ==> ((db.heads[i].subject, r) in db.versions <==> 1 <= r <= db.heads[i].revision))
    && (forall k :: k in db.versions ==> k.0 < db.nextId)
  }

  /** A version supersedes its predecessor, decides something else and passes the regression guard. */
  predicate Succeeds(versions: map<(SubjectId, nat), Version>, k: (SubjectId, nat))
    requires k in versions
  {
    if k.1 <= 1 then versions[k].supersedes == None
    else
      && versions[k].supersedes == Some((k.1 - 1) as nat)
      && (k.0, k.1 - 1) in versions
      && versions[k].decision != versions[(k.0, k.1 - 1)].decision
      && !Regresses(versions[(k.0, k.1 - 1)].decision.evidence, versions[k].decision.evidence)
  }

  ghost predicate ChainOk(db: Db) { forall k :: k in db.versions ==> Succeeds(db.versions, k) }

  predicate Qualified(strict: bool, d: Decision) {
    d.assertion == Occurred && d.severity != Routine && Reliable(d.status) && (strict ==> d.status == IndependentMultiSource)
  }

  /** A first report or update of a qualified version, at or before position `i`, to the same recipient. */
  ghost predicate Announced(strict: bool, db: Db, i: nat)
    requires i < |db.intents|
  {
    exists j :: 0 <= j <= i && db.intents[j].subject == db.intents[i].subject && db.intents[j].recipient == db.intents[i].recipient
      && (db.intents[j].kind == FirstReport || db.intents[j].kind == Update)
      && (db.intents[j].subject, db.intents[j].revision) in db.versions
      && Qualified(strict, db.versions[(db.intents[j].subject, db.intents[j].revision)].decision)
  }

  ghost predicate IntentsOk(strict: bool, db: Db) {
    && Distinct(db.intents)
    && forall i :: 0 <= i < |db.intents| ==> Announced(strict, db, i)
  }

  ghost predicate Sound(strict: bool, db: Db) { HeadsOk(db) && ChainOk(db) && IntentsOk(strict, db) }

  /** Rows are only ever added, and heads only advance. */
  ghost predicate Extends(db: Db, db': Db) {
    && (forall k :: k in db.records ==> k in db'.records && db'.records[k] == db.records[k])
    && (forall k :: k in db.versions ==> k in db'.versions && db'.versions[k] == db.versions[k])
    && (forall i :: i in db.heads ==>
          i in db'.heads && db'.heads[i].subject == db.heads[i].subject && db'.heads[i].revision >= db.heads[i].revision)
    && db.intents <= db'.intents
  }

  /** With `strict`, every transaction runs under the policy that asks for independent sources. */
  predicate PolicyHolds(strict: bool, env: Env) { strict ==> env.policy == Some(IndependentOnly) }

  ghost predicate PoliciesHold(strict: bool, op: Op) {
    op.CommitOp? ==> forall p :: p in op.batch.proposals ==> PolicyHolds(strict, p.env)
  }

  lemma StoreKeepsHeads(db: Db, identity: Identity, p: Proposal)
    requires HeadsOk(db) && Store(db, identity, p).Ok?
    ensures HeadsOk(Store(db, identity, p).value)
  {
    var db' := Store(db, identity, p).value;
    var head := NextHead(db, identity);
    forall i, r | i in db'.heads ensures (db'.heads[i].subject, r) in db'.versions <==> 1 <= r <= db'.heads[i].revision {
      if i != identity { assert i in db.heads && db.heads[i].subject != head.subject; }
    }
  }

  lemma StoreKeepsChain(db: Db, identity: Identity, p: Proposal)
    requires HeadsOk(db) && ChainOk(db) && Store(db, identity, p).Ok? && !Settled(db, p.candidate, identity)
    ensures ChainOk(Store(db, identity, p).value)
  {
    var db' := Store(db, identity, p).value;
    var head := NextHead(db, identity);
    forall k | k in db'.versions ensures Succeeds(db'.versions, k) {
      if k != (head.subject, head.revision) {
        assert Succeeds(db.versions, k);
      }
    }
  }

  lemma StoreExtends(db: Db, identity: Identity, p: Proposal)
    requires HeadsOk(db) && Store(db, identity, p).Ok?
    ensures Extends(db, Store(db, identity, p).value)
  {
    var c, head := p.candidate, NextHead(db, identity);
    var kind := KindOf(head.revision, c.decision, Previous(db, identity));
    NotifyAdds(db.intents, head.subject, head.revision, c.decision, kind, p.env,
               if Follows(kind) then Prior(db.intents, head.subject, head.revision) else {}, p.env.users);
  }

  lemma AnnouncedStays(strict: bool, db: Db, db': Db, i: nat)
    requires Extends(db, db') && i < |db.intents| && Announced(strict, db, i)
    ensures Announced(strict, db', i)
  {
    var j :| 0 <= j <= i && db.intents[j].subject == db.intents[i].subject && db.intents[j].recipient == db.intents[i].recipient
      && (db.intents[j].kind == FirstReport || db.intents[j].kind == Update)
      && (db.intents[j].subject, db.intents[j].revision) in db.versions
      && Qualified(strict, db.versions[(db.intents[j].subject, db.intents[j].revision)].decision);
    assert db'.intents[j] == db.intents[j] && db'.intents[i] == db.intents[i];
  }

  /** An intent with an announced earlier one of the same subject and recipient is announced. */
  lemma AnnouncedBy(strict: bool, db: Db, e: nat, i: nat)
    requires e <= i < |db.intents| && Announced(strict, db, e)
    requires db.intents[e].subject == db.intents[i].subject && db.intents[e].recipient == db.intents[i].recipient
    ensures Announced(strict, db, i)
  {
    var j :| 0 <= j <= e && db.intents[j].subject == db.intents[e].subject && db.intents[j].recipient == db.intents[e].recipient
      && (db.intents[j].kind == FirstReport || db.intents[j].kind == Update)
      && (db.intents[j].subject, db.intents[j].revision) in db.versions
      && Qualified(strict, db.versions[(db.intents[j].subject, db.intents[j].revision)].decision);
    assert 0 <= j <= i;
  }

  lemma StoreKeepsIntents(strict: bool, db: Db, identity: Identity, p: Proposal)
    requires Sound(strict, db) && Store(db, identity, p).Ok? && PolicyHolds(strict, p.env)
    ensures IntentsOk(strict, Store(db, identity, p).value)
  {
    var db' := Store(db, identity, p).value;
    var c, head := p.candidate, NextHead(db, identity);
    var kind := KindOf(head.revision, c.decision, Previous(db, identity));
    var prior := if Follows(kind) then Prior(db.intents, head.subject, head.revision) else {};
    NotifyAdds(db.intents, head.subject, head.revision, c.decision, kind, p.env, prior, p.env.users);
    StoreExtends(db, identity, p);
    forall i | 0 <= i < |db'.intents| ensures Announced(strict, db', i) {
      if i < |db.intents| {
        AnnouncedStays(strict, db, db', i);
      } else {
        var x := db'.intents[i];
        var u :| u in p.env.users && u.recipient == x.recipient && Notified(c.decision, kind, p.env, prior, u);
        if Follows(kind) {
          var y :| y in db.intents && y.subject == head.subject && y.revision < head.revision && y.recipient == x.recipient;
          var e :| 0 <= e < |db.intents| && db.intents[e] == y;
          AnnouncedStays(strict, db, db', e);
          assert db'.intents[e] == y;
          AnnouncedBy(strict, db', e, i);
        }
      }
    }
  }

  lemma CommitOneKeeps(strict: bool, db: Db, p: Proposal, namespace: string, allowed: set<RecordKey>)
    requires Sound(strict, db) && CommitOne(db, p, namespace, allowed).Ok? && PolicyHolds(strict, p.env)
    ensures Sound(strict, CommitOne(db, p, namespace, allowed).value)
    ensures Extends(db, CommitOne(db, p, namespace, allowed).value)
  {
    var identity := IdentityOf(p.candidate, namespace);
    if !Settled(db, p.candidate, identity) {
      StoreKeepsHeads(db, identity, p);
      StoreKeepsChain(db, identity, p);
      StoreKeepsIntents(strict, db, identity, p);
      StoreExtends(db, identity, p);
    }
  }

  lemma {:induction false} CommitAllKeeps(strict: bool, db: Db, b: Batch, ps: seq<Proposal>)
    requires Sound(strict, db) && CommitAll(db, b, ps).Ok? && forall p :: p in ps ==> PolicyHolds(strict, p.env)
    ensures Sound(strict, CommitAll(db, b, ps).value) && Extends(db, CommitAll(db, b, ps).value)
    decreases |ps|
  {
    if ps != [] {
      var allowed := Allowed(b, IdentityOf(ps[0].candidate, b.namespace));
      assert ps[0] in ps;
      CommitOneKeeps(strict, db, ps[0], b.namespace, allowed);
      CommitAllKeeps(strict, CommitOne(db, ps[0], b.namespace, allowed).value, b, ps[1..]);
    }
  }

  lemma RemindKeeps(strict: bool, db: Db, reminder: ReminderEnv)
    requires Sound(strict, db) && Attempt(db, RemindOp(reminder)).Ok?
    ensures Sound(strict, Attempt(db, RemindOp(reminder)).value) && Extends(db, Attempt(db, RemindOp(reminder)).value)
  {
    var db' := Attempt(db, RemindOp(reminder)).value;
    RemindAdds(db.intents, Heads(db), db.grants, reminder);
    forall i | |db.intents| <= i < |db'.intents| ensures Preceded(db'.intents, i) {
      var j :| 0 <= j < i && db'.intents[j].subject == db'.intents[i].subject && db'.intents[j].revision == db'.intents[i].revision
        && db'.intents[j].recipient == db'.intents[i].recipient && !db'.intents[j].kind.Reminder? && db'.intents[j] in reminder.delivered;
    }
    AllAnnounced(strict, db, db', |db'.intents|);
  }

  ghost predicate Preceded(intents: seq<Intent>, i: nat)
    requires i < |intents|
  {
    exists j :: 0 <= j < i && intents[j].subject == intents[i].subject && intents[j].recipient == intents[i].recipient
  }

  /** Appending intents that each follow an earlier one of the same subject and recipient. */
  lemma {:induction false} AllAnnounced(strict: bool, db: Db, db': Db, n: nat)
    requires IntentsOk(strict, db) && Extends(db, db') && n <= |db'.intents|
    requires forall i :: |db.intents| <= i < |db'.intents| ==> Preceded(db'.intents, i)
    ensures forall i :: 0 <= i < n ==> Announced(strict, db', i)
  {
    if n > 0 {
      AllAnnounced(strict, db, db', n - 1);
      var i := n - 1;
      if i < |db.intents| {
        AnnouncedStays(strict, db, db', i);
      } else {
        assert Preceded(db'.intents, i);
        var j :| 0 <= j < i && db'.intents[j].subject == db'.intents[i].subject
          && db'.intents[j].recipient == db'.intents[i].recipient;
        AnnouncedBy(strict, db', j, i);
      }
    }
  }

  lemma OrderedMembers(ps: seq<Proposal>)
    ensures forall p :: p in Ordered(ps) <==> p in ps
  {
    SameMembers(Ordered(ps), ps);
  }

  lemma ApplyKeeps(strict: bool, db: Db, op: Op)
    requires Sound(strict, db) && PoliciesHold(strict, op)
    ensures Sound(strict, Apply(db, op)) && Extends(db, Apply(db, op))
  {
    if Attempt(db, op).Ok? {
      match op {
        case CommitOp(b) =>
          OrderedMembers(b.proposals);
          CommitAllKeeps(strict, db, b, Ordered(b.proposals));
        case RemindOp(reminder) => RemindKeeps(strict, db, reminder);
        case IngestOp(r) =>
          var db' := Apply(db, op);
          forall i | 0 <= i < |db'.intents| ensures Announced(strict, db', i) { AnnouncedStays(strict, db, db', i); }
      }
    }
  }

  lemma {:induction false} RunKeeps(strict: bool, db: Db, ops: seq<Op>)
    requires Sound(strict, db) && forall op :: op in ops ==> PoliciesHold(strict, op)
    ensures Sound(strict, Run(db, ops)) && Extends(db, Run(db, ops))
    decreases |ops|
  {
    if ops != [] {
      assert ops[0] in ops;
      ApplyKeeps(strict, db, ops[0]);
      RunKeeps(strict, Apply(db, ops[0]), ops[1..]);
    }
  }

  // ---- main results ----

  /** Over every run, a family's versions are exactly 1 to its current revision; each supersedes its predecessor,
      decides something else, and by the guard moves no cited record back (see `GuardExact`). */
  lemma VersionsForm(ops: seq<Op>, identity: Identity, r: nat)
    requires identity in Run(EmptyDb, ops).heads
    ensures var db := Run(EmptyDb, ops);
            var id := db.heads[identity].subject;
            && ((id, r) in db.versions <==> 1 <= r <= db.heads[identity].revision)
            && ((id, r) in db.versions ==> Succeeds(db.versions, (id, r)))
            && (r > 1 && (id, r) in db.versions && NewestLast(db.versions[(id, r - 1)].decision.evidence) ==>
                  Monotone(db.versions[(id, r - 1)].decision.evidence, db.versions[(id, r)].decision.evidence))
  {
    RunKeeps(false, EmptyDb, ops);
    var db := Run(EmptyDb, ops);
    var id := db.heads[identity].subject;
    if r > 1 && (id, r) in db.versions && NewestLast(db.versions[(id, r - 1)].decision.evidence) {
      assert Succeeds(db.versions, (id, r));
      GuardExact(db.versions[(id, r - 1)].decision.evidence);
    }
  }

  /** No business key gets two intents. */
  lemma IntentsUnique(ops: seq<Op>)
    ensures Distinct(Run(EmptyDb, ops).intents)
  {
    RunKeeps(false, EmptyDb, ops);
  }

  /** The earliest intent any recipient has for an event is a first report or update of an occurred, non-routine
      version with reliable evidence (independent evidence when the policy always asks for it); so a correction,
      withdrawal or reminder always follows such an intent. */
  lemma EarliestIntentQualified(strict: bool, ops: seq<Op>, i: nat)
    requires forall op :: op in ops ==> PoliciesHold(strict, op)
    requires i < |Run(EmptyDb, ops).intents|
    requires var x := Run(EmptyDb, ops).intents;
             forall j :: 0 <= j < i ==> x[j].subject != x[i].subject || x[j].recipient != x[i].recipient
    ensures var db := Run(EmptyDb, ops);
            var x := db.intents[i];
            && (x.kind == FirstReport || x.kind == Update)
            && (x.subject, x.revision) in db.versions && Qualified(strict, db.versions[(x.subject, x.revision)].decision)
  {
    RunKeeps(strict, EmptyDb, ops);
    assert Announced(strict, Run(EmptyDb, ops), i);
  }

  /** If a family's head is the same after a run, none of its versions was added in between. */
  lemma SameHeadSameVersions(db: Db, db': Db, identity: Identity, r: nat)
    requires HeadsOk(db) && HeadsOk(db') && Extends(db, db')
    requires identity in db.heads && HeadOf(db, identity) == HeadOf(db', identity)
    ensures (db.heads[identity].subject, r) in db.versions <==> (db.heads[identity].subject, r) in db'.versions
  {
  }

  /** What a batch does to one family: nothing, or one next version whose evidence it was allowed. */
  ghost predicate FamilyStep(db: Db, db': Db, b: Batch, identity: Identity) {
    || HeadOf(db', identity) == HeadOf(db, identity)
    || (&& identity in db'.heads && identity in Identities(b.proposals, b.namespace)
        && db'.heads[identity].revision == NextHead(db, identity).revision
        && (identity in db.heads ==> db'.heads[identity].subject == db.heads[identity].subject)
        && (db'.heads[identity].subject, db'.heads[identity].revision) in db'.versions
        && Refs(db'.versions[(db'.heads[identity].subject, db'.heads[identity].revision)].decision.evidence) <= Allowed(b, identity))
  }

  lemma CommitAllNext(db: Db, b: Batch, ps: seq<Proposal>, i: nat)
    requires i < |ps|
    ensures var next := CommitOne(db, ps[i], b.namespace, Allowed(b, IdentityOf(ps[i].candidate, b.namespace)));
            CommitAll(db, b, ps[i..]) == if next.Err? then next else CommitAll(next.value, b, ps[i + 1..])
  {
    assert ps[i..][0] == ps[i] && ps[i..][1..] == ps[i + 1..];
  }

  lemma CommitOneHead(db: Db, p: Proposal, namespace: string, allowed: set<RecordKey>, identity: Identity)
    requires CommitOne(db, p, namespace, allowed).Ok? && identity != IdentityOf(p.candidate, namespace)
    ensures HeadOf(CommitOne(db, p, namespace, allowed).value, identity) == HeadOf(db, identity)
  {
  }

  lemma CommitOneOther(db: Db, p: Proposal, namespace: string, allowed: set<RecordKey>, identity: Identity)
    requires HeadsOk(db) && CommitOne(db, p, namespace, allowed).Ok? && identity != IdentityOf(p.candidate, namespace)
    ensures var db' := CommitOne(db, p, namespace, allowed).value;
            && HeadOf(db', identity) == HeadOf(db, identity) && Previous(db', identity) == Previous(db, identity)
  {
  }

  lemma {:induction false} CommitAllOther(db: Db, b: Batch, ps: seq<Proposal>, identity: Identity)
    requires Sound(false, db) && CommitAll(db, b, ps).Ok?
    requires forall p :: p in ps ==> IdentityOf(p.candidate, b.namespace) != identity
    ensures var db' := CommitAll(db, b, ps).value;
            && HeadOf(db', identity) == HeadOf(db, identity) && Previous(db', identity) == Previous(db, identity)
    decreases |ps|
  {
    if ps != [] {
      var allowed := Allowed(b, IdentityOf(ps[0].candidate, b.namespace));
      assert ps[0] in ps;
      CommitOneKeeps(false, db, ps[0], b.namespace, allowed);
      CommitOneOther(db, ps[0], b.namespace, allowed, identity);
      CommitAllOther(CommitOne(db, ps[0], b.namespace, allowed).value, b, ps[1..], identity);
    }
  }

  lemma {:induction false} CommitAllFamilies(db: Db, b: Batch, ps: seq<Proposal>, identity: Identity)
    requires Sound(false, db) && CommitAll(db, b, ps).Ok? && OneFamilyEach(ps)
    requires forall p :: p in ps ==> p in b.proposals
    ensures FamilyStep(db, CommitAll(db, b, ps).value, b, identity)
    decreases |ps|
  {
    if ps != [] {
      var mine := IdentityOf(ps[0].candidate, b.namespace);
      var allowed := Allowed(b, mine);
      assert ps[0] in ps;
      CommitOneKeeps(false, db, ps[0], b.namespace, allowed);
      var next := CommitOne(db, ps[0], b.namespace, allowed).value;
      if identity == mine {
        forall p | p in ps[1..] ensures IdentityOf(p.candidate, b.namespace) != identity {
          var k :| 0 <= k < |ps| - 1 && ps[1..][k] == p;
          assert ps[k + 1] == p;
        }
        CommitAllOther(next, b, ps[1..], identity);
        assert Previous(CommitAll(db, b, ps).value, identity) == Previous(next, identity);
      } else {
        CommitOneOther(db, ps[0], b.namespace, allowed, identity);
        CommitAllFamilies(next, b, ps[1..], identity);
      }
    }
  }

  /** What a family may cite under a snapshot: what the claims cite, and what the snapshot's head cites. */
  lemma SnapshotAllows(read: Db, claims: seq<RecordKey>, cs: seq<Candidate>, b: Batch, identity: Identity)
    requires b.snapshot.Some? && StartPrepare(read, claims, cs, b.namespace) == Ok(b.snapshot.value)
    requires identity in b.snapshot.value.heads
    ensures b.snapshot.value.heads[identity] == HeadOf(read, identity)
    ensures Allowed(b, identity)
              <= (set k | k in claims) + if Previous(read, identity).Some? then Refs(Previous(read, identity).value.decision.evidence) else {}
  {
    PreparedHeads(read, (set k | k in claims), cs, b.namespace, Snapshot(map[], map[], claims));
  }

  /** A version stored under a snapshot supersedes exactly the head the snapshot was read at: no version of its
      family came between, and it cites only what the claims and that head cited. */
  lemma SnapshotFresh(read: Db, db: Db, claims: seq<RecordKey>, cs: seq<Candidate>, b: Batch, identity: Identity)
    requires Sound(false, read) && Sound(false, db) && Extends(read, db)
    requires b.snapshot.Some? && StartPrepare(read, claims, cs, b.namespace) == Ok(b.snapshot.value)
    requires Commit(db, b).Ok? && HeadOf(Commit(db, b).value, identity) != HeadOf(db, identity)
    ensures HeadOf(db, identity) == HeadOf(read, identity) && Previous(db, identity) == Previous(read, identity)
    ensures var after := Commit(db, b).value;
            && identity in after.heads && after.heads[identity].revision == NextHead(read, identity).revision
            && (identity in read.heads ==> after.heads[identity].subject == read.heads[identity].subject)
            && Previous(after, identity).Some?
            && Refs(Previous(after, identity).value.decision.evidence)
                 <= (set k | k in claims) + if Previous(read, identity).Some? then Refs(Previous(read, identity).value.decision.evidence) else {}
  {
    OrderedMembers(b.proposals);
    CommitAllFamilies(db, b, Ordered(b.proposals), identity);
    assert identity in b.snapshot.value.heads;
    SnapshotAllows(read, claims, cs, b, identity);
    if identity in read.heads {
      SameHeadSameVersions(read, db, identity, read.heads[identity].revision);
    }
  }

  /** The hypotheses above hold of every run from an empty database through the reading of the snapshot; stored
      versions and intents never change, and revisions never go back. */
  lemma RunsQualify(ops: seq<Op>, more: seq<Op>)
    ensures var read := Run(EmptyDb, ops);
            Sound(false, read) && Sound(false, Run(read, more)) && Extends(read, Run(read, more))
  {
    RunKeeps(false, EmptyDb, ops);
    RunKeeps(false, Run(EmptyDb, ops), more);
  }

  // ---- committing again ----

  lemma CommitOneSettles(db: Db, p: Proposal, namespace: string, allowed: set<RecordKey>)
    requires HeadsOk(db) && CommitOne(db, p, namespace, allowed).Ok?
    ensures Settled(CommitOne(db, p, namespace, allowed).value, p.candidate, IdentityOf(p.candidate, namespace))
  {
  }

  lemma {:induction false} CommitAllSettles(db: Db, b: Batch, ps: seq<Proposal>, p: Proposal)
    requires Sound(false, db) && CommitAll(db, b, ps).Ok? && OneFamilyEach(ps) && p in ps
    ensures Settled(CommitAll(db, b, ps).value, p.candidate, IdentityOf(p.candidate, b.namespace))
    decreases |ps|
  {
    var identity := IdentityOf(ps[0].candidate, b.namespace);
    var allowed := Allowed(b, identity);
    CommitOneKeeps(false, db, ps[0], b.namespace, allowed);
    var next := CommitOne(db, ps[0], b.namespace, allowed).value;
    if p == ps[0] {
      CommitOneSettles(db, p, b.namespace, allowed);
      forall q | q in ps[1..] ensures IdentityOf(q.candidate, b.namespace) != identity {
        var k :| 0 <= k < |ps| - 1 && ps[1..][k] == q;
        assert ps[k + 1] == q;
      }
      CommitAllOther(next, b, ps[1..], identity);
    } else {
      CommitAllSettles(next, b, ps[1..], p);
    }
  }

  lemma {:induction false} SettledUnchanged(db: Db, b: Batch, ps: seq<Proposal>)
    requires forall p :: p in ps ==> Settled(db, p.candidate, IdentityOf(p.candidate, b.namespace))
    requires CommitAll(db, b, ps).Ok?
    ensures CommitAll(db, b, ps).value == db
    decreases |ps|
  {
    if ps != [] {
      assert ps[0] in ps;
      SettledUnchanged(db, b, ps[1..]);
    }
  }

  /** The operation commits nothing for this family. */
  predicate LeavesFamily(op: Op, identity: Identity) {
    op.CommitOp? ==> identity !in Identities(op.batch.proposals, op.batch.namespace)
  }

  lemma {:induction false} OthersKeepHead(db: Db, ops: seq<Op>, identity: Identity)
    requires Sound(false, db) && forall op :: op in ops ==> LeavesFamily(op, identity)
    ensures HeadOf(Run(db, ops), identity) == HeadOf(db, identity)
    decreases |ops|
  {
    if ops != [] {
      assert ops[0] in ops;
      ApplyKeeps(false, db, ops[0]);
      OtherKeepsHead(db, ops[0], identity);
      OthersKeepHead(Apply(db, ops[0]), ops[1..], identity);
    }
  }

  lemma OtherKeepsHead(db: Db, op: Op, identity: Identity)
    requires Sound(false, db) && LeavesFamily(op, identity)
    ensures HeadOf(Apply(db, op), identity) == HeadOf(db, identity)
  {
    if op.CommitOp? && Attempt(db, op).Ok? {
      OrderedMembers(op.batch.proposals);
      CommitAllOther(db, op.batch, Ordered(op.batch.proposals), identity);
    }
  }

  /** The family's head is still the one it had, or carries the decision again. */
  predicate StillCarries(db: Db, later: Db, identity: Identity, d: Decision) {
    || HeadOf(later, identity) == HeadOf(db, identity)
    || (Previous(later, identity).Some? && Previous(later, identity).value.decision == d)
  }

  lemma StaysSettled(db: Db, later: Db, c: Candidate, identity: Identity)
    requires HeadsOk(db) && Extends(db, later) && Settled(db, c, identity) && StillCarries(db, later, identity, c.decision)
    ensures Settled(later, c, identity)
  {
  }

  /** Committing the same decisions again adds no version and no intent, whatever the users, gates and snapshot are by
      then and whatever ran in between, as long as each family's head still is what the first commit left or carries the
      decision again; as it is when only other families were committed (see `OthersKeepHead`). */
  lemma RecommitUnchanged(ops: seq<Op>, b: Batch, between: seq<Op>, again: Batch)
    requires Commit(Run(EmptyDb, ops), b).Ok? && again.namespace == b.namespace
    requires forall q :: q in again.proposals ==>
               exists p :: p in b.proposals && p.candidate.family == q.candidate.family && p.candidate.decision == q.candidate.decision
    requires var db := Apply(Run(EmptyDb, ops), CommitOp(b));
             forall q :: q in again.proposals ==>
               StillCarries(db, Run(db, between), IdentityOf(q.candidate, b.namespace), q.candidate.decision)
    ensures var later := Run(Apply(Run(EmptyDb, ops), CommitOp(b)), between);
            Apply(later, CommitOp(again)) == later
  {
    var start := Run(EmptyDb, ops);
    RunKeeps(false, EmptyDb, ops);
    ApplyKeeps(false, start, CommitOp(b));
    RunKeeps(false, Apply(start, CommitOp(b)), between);
    RecommitLater(start, b, Run(Apply(start, CommitOp(b)), between), again);
  }

  lemma RecommitLater(start: Db, b: Batch, later: Db, again: Batch)
    requires Sound(false, start) && Commit(start, b).Ok? && again.namespace == b.namespace
    requires HeadsOk(Apply(start, CommitOp(b))) && Extends(Apply(start, CommitOp(b)), later)
    requires forall q :: q in again.proposals ==>
               && (exists p :: p in b.proposals && p.candidate.family == q.candidate.family && p.candidate.decision == q.candidate.decision)
               && StillCarries(Apply(start, CommitOp(b)), later, IdentityOf(q.candidate, b.namespace), q.candidate.decision)
    ensures Apply(later, CommitOp(again)) == later
  {
    OrderedMembers(again.proposals);
    forall q | q in again.proposals ensures Settled(later, q.candidate, IdentityOf(q.candidate, again.namespace)) {
      CommittedSettles(start, b, q);
      StaysSettled(Apply(start, CommitOp(b)), later, q.candidate, IdentityOf(q.candidate, b.namespace));
    }
    if Attempt(later, CommitOp(again)).Ok? {
      SettledUnchanged(later, again, Ordered(again.proposals));
    }
  }

  lemma CommittedSettles(db: Db, b: Batch, q: Proposal)
    requires Sound(false, db) && Commit(db, b).Ok?
    requires exists p :: p in b.proposals && p.candidate.family == q.candidate.family && p.candidate.decision == q.candidate.decision
    ensures Settled(Apply(db, CommitOp(b)), q.candidate, IdentityOf(q.candidate, b.namespace))
  {
    var p :| p in b.proposals && p.candidate.family == q.candidate.family && p.candidate.decision == q.candidate.decision;
    OrderedMembers(b.proposals);
    CommitAllSettles(db, b, Ordered(b.proposals), p);
  }
}
