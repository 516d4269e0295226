module AssessedVersions {
  /** Versions whose candidates an assessment built: no cited record moves back. And a run with candidates of another
  making that the regression guard lets through. */

  import opened Common
  import opened Contracts
  import opened Notifications
  import opened Decisions
  import A = Assessment
  import opened Revisions

  // ---- one reference per record ----

  function CitedIds(evidence: seq<Ref>): (r: seq<string>)
    ensures |r| == |evidence| && forall k :: 0 <= k < |r| ==> r[k] == evidence[k].recordId
  {
    seq(|evidence|, k requires 0 <= k < |evidence| => evidence[k].recordId)
  }

  lemma CitedIdsCover(evidence: seq<Ref>)
    ensures ToSet(CitedIds(evidence)) == (set ref | ref in evidence :: ref.recordId)
  {
    var ids := CitedIds(evidence);
    forall ref | ref in evidence ensures ref.recordId in ids {
      var k :| 0 <= k < |evidence| && evidence[k] == ref;
      assert ids[k] == ref.recordId;
    }
    forall id | id in ids ensures exists ref :: ref in evidence && ref.recordId == id {
      var k :| 0 <= k < |ids| && ids[k] == id;
      assert evidence[k] in evidence;
    }
  }

  /** The event validator with one reference for each supporting record leaves each record cited once. */
  lemma ValidCitesOnce(e: A.Event, fold: string -> string)
    requires A.ValidEvent(e, fold) && |e.evidence| == |e.support|
    ensures Distinct(CitedIds(e.evidence)) && NewestLast(e.evidence)
  {
    CitedIdsCover(e.evidence);
    DistinctSize(CitedIds(e.evidence));
    forall a, b | a in e.evidence && b in e.evidence && a.recordId == b.recordId ensures a.revision == b.revision {
      var i :| 0 <= i < |e.evidence| && e.evidence[i] == a;
      var j :| 0 <= j < |e.evidence| && e.evidence[j] == b;
      assert CitedIds(e.evidence)[i] == CitedIds(e.evidence)[j];
    }
    CitedOnce(e.evidence);
  }

  // ---- candidates an assessment built ----

  function OriginsOf(origins: seq<A.Origin>): seq<OriginGroup> {
    seq(|origins|, k requires 0 <= k < |origins| => OriginGroup(origins[k].publisher, origins[k].recordIds))
  }

  predicate Carries(c: Candidate, e: A.Event) {
    && c.family == e.eventId && c.decision.assertion == e.assertion && c.decision.severity == e.severity
    && c.decision.status == e.status && c.decision.evidence == e.evidence && c.decision.origins == OriginsOf(e.origins)
  }

  ghost predicate AssessedIn(c: Candidate, x: A.Inputs, claims: A.Claims) {
    A.Construct(x, claims).Ok? && exists e :: e in A.Construct(x, claims).value && Carries(c, e)
  }

  /** Some assessment answered with this candidate. */
  ghost predicate Assessed(c: Candidate) { exists x: A.Inputs, claims: A.Claims :: AssessedIn(c, x, claims) }

  lemma {:induction false} ConstructedValid(x: A.Inputs, claims: A.Claims, groups: seq<A.Group>, e: A.Event)
    requires A.ConstructGroups(x, claims, groups).Ok? && e in A.ConstructGroups(x, claims, groups).value
    ensures A.ValidEvent(e, x.fold) && |e.evidence| == |e.support|
    decreases |groups|
  {
    var rest := groups[..|groups| - 1];
    if e in A.ConstructGroups(x, claims, rest).value { ConstructedValid(x, claims, rest, e); }
  }

  lemma AssessedCitesOnce(c: Candidate)
    requires Assessed(c)
    ensures NewestLast(c.decision.evidence)
  {
    var x: A.Inputs, claims: A.Claims :| AssessedIn(c, x, claims);
    var e :| e in A.Construct(x, claims).value && Carries(c, e);
    ConstructedValid(x, claims, A.Groups(x.eventOf, Latest(x.records)), e);
    ValidCitesOnce(e, x.fold);
  }

  // ---- where stored decisions come from ----

  ghost predicate ProposedIn(ps: seq<Proposal>, d: Decision) { exists p :: p in ps && p.candidate.decision == d }

  ghost predicate Proposed(ops: seq<Op>, d: Decision) {
    exists op :: op in ops && op.CommitOp? && ProposedIn(op.batch.proposals, d)
  }

  lemma {:induction false} CommitStores(db: Db, b: Batch, ps: seq<Proposal>, k: (SubjectId, nat))
    requires CommitAll(db, b, ps).Ok? && k in CommitAll(db, b, ps).value.versions
    ensures var v := CommitAll(db, b, ps).value.versions[k];
            (k in db.versions && db.versions[k] == v) || ProposedIn(ps, v.decision)
    decreases |ps|
  {
    if ps != [] {
      var next := CommitOne(db, ps[0], b.namespace, Allowed(b, IdentityOf(ps[0].candidate, b.namespace))).value;
      var v := CommitAll(db, b, ps).value.versions[k];
      CommitStores(next, b, ps[1..], k);
      if ProposedIn(ps[1..], v.decision) {
        var p :| p in ps[1..] && p.candidate.decision == v.decision;
        assert p in ps;
      } else if k !in db.versions || db.versions[k] != v {
        assert ps[0] in ps && ps[0].candidate.decision == v.decision;
      }
    }
  }

  lemma ApplyStores(db: Db, op: Op, k: (SubjectId, nat))
    requires k in Apply(db, op).versions
    ensures var v := Apply(db, op).versions[k];
            (k in db.versions && db.versions[k] == v) || (op.CommitOp? && ProposedIn(op.batch.proposals, v.decision))
  {
    if op.CommitOp? && Attempt(db, op).Ok? {
      var v := Apply(db, op).versions[k];
      CommitStores(db, op.batch, Ordered(op.batch.proposals), k);
      if ProposedIn(Ordered(op.batch.proposals), v.decision) {
        var p :| p in Ordered(op.batch.proposals) && p.candidate.decision == v.decision;
        OrderedMembers(op.batch.proposals);
        assert p in op.batch.proposals;
      }
    }
  }

  /** Every stored decision was proposed. */
  lemma {:induction false} RunStores(db: Db, ops: seq<Op>, k: (SubjectId, nat))
    requires k in Run(db, ops).versions
    ensures var v := Run(db, ops).versions[k];
            (k in db.versions && db.versions[k] == v) || Proposed(ops, v.decision)
    decreases |ops|
  {
    if ops != [] {
      var v := Run(db, ops).versions[k];
      RunStores(Apply(db, ops[0]), ops[1..], k);
      if Proposed(ops[1..], v.decision) {
        var op :| op in ops[1..] && op.CommitOp? && ProposedIn(op.batch.proposals, v.decision);
        assert op in ops;
      } else {
        ApplyStores(db, ops[0], k);
        assert ops[0] in ops;
      }
    }
  }

  /** Main result: over every run whose candidates come from assessments, no record cited by two consecutive versions
      moves to an older revision. */
  lemma NoCitationMovesBack(ops: seq<Op>, identity: Identity, r: nat)
    requires forall op, p :: op in ops && op.CommitOp? && p in op.batch.proposals ==> Assessed(p.candidate)
    requires identity in Run(EmptyDb, ops).heads
    requires 1 < r <= Run(EmptyDb, ops).heads[identity].revision
    ensures var db := Run(EmptyDb, ops);
            var id := db.heads[identity].subject;
            && (id, r - 1) in db.versions && (id, r) in db.versions
            && Monotone(db.versions[(id, r - 1)].decision.evidence, db.versions[(id, r)].decision.evidence)
  {
    var db := Run(EmptyDb, ops);
    var id := db.heads[identity].subject;
    VersionsForm(ops, identity, r);
    VersionsForm(ops, identity, r - 1);
    var d := db.versions[(id, r - 1)].decision;
    RunStores(EmptyDb, ops, (id, r - 1));
    var op :| op in ops && op.CommitOp? && ProposedIn(op.batch.proposals, d);
    var p :| p in op.batch.proposals && p.candidate.decision == d;
    AssessedCitesOnce(p.candidate);
  }

  // ---- a run of another producer ----

  const OneScope := Scope(Production, None)

  function Revision(n: nat): SourceRecord {
    SourceRecord(
      "record", "source", "item", n, ("text", ""), "text", "", "url", "publisher", None, None, 0, None, "rights", ValidTime, OneScope)
  }

  function Cite(n: nat): Ref { Ref("record", n, Title, "text") }

  function Citing(evidence: seq<Ref>): Proposal {
    var d := Decision(AssertionUnknown, Routine, Unverified, evidence, [OriginGroup("publisher", ["record"])], OneScope, "");
    Proposal(Candidate("family", d, 0, ""), Env(None, DryRunMode, DryRun, false, false, false, []), 0)
  }

  function Single(evidence: seq<Ref>): Batch { Batch([Citing(evidence)], "namespace", true, {("record", 1), ("record", 2)}, None) }

  predicate Cites(evidence: seq<Ref>) { forall k :: 0 <= k < |evidence| ==> evidence[k] in {Cite(1), Cite(2)} }

  const OneIdentity := Identity("namespace", "family", OneScope)

  function Stored(db: Db, evidence: seq<Ref>): Db {
    var head := NextHead(db, OneIdentity);
    Db(
      db.records, db.heads[OneIdentity := head],
      db.versions[(head.subject, head.revision) := NewVersion(Citing(evidence).candidate, head.revision)], db.intents, db.grants,
      if OneIdentity in db.heads then db.nextId else db.nextId + 1)
  }

  lemma EvidenceAccepted(records: map<RecordKey, SourceRecord>, evidence: seq<Ref>)
    requires Cites(evidence) && records == map[("record", 1) := Revision(1), ("record", 2) := Revision(2)]
    ensures EvidenceOk(records, Citing(evidence).candidate.decision) && Refs(evidence) <= {("record", 1), ("record", 2)}
  {
    assert Publishers([OriginGroup("publisher", ["record"])], "record") == ["publisher"];
    assert StandsAt("text", "text", 0);
  }

  lemma SingleStores(db: Db, evidence: seq<Ref>)
    requires Cites(evidence) && db.records == map[("record", 1) := Revision(1), ("record", 2) := Revision(2)]
    requires !Settled(db, Citing(evidence).candidate, OneIdentity)
    ensures Apply(db, CommitOp(Single(evidence))) == Stored(db, evidence)
  {
    var p, b := Citing(evidence), Single(evidence);
    EvidenceAccepted(db.records, evidence);
    assert Ordered([p]) == [p];
    assert IdentityOf(p.candidate, "namespace") == OneIdentity && Allowed(b, OneIdentity) == b.inputs;
    assert db.grants + [] == db.grants;
    assert Store(db, OneIdentity, p) == Ok(Stored(db, evidence));
    OneCommit(db, b, p, Stored(db, evidence));
  }

  lemma OneCommit(db: Db, b: Batch, p: Proposal, next: Db)
    requires b.claimsLive && b.snapshot.None? && b.proposals == [p] && Ordered([p]) == [p]
    requires CommitOne(db, p, b.namespace, Allowed(b, IdentityOf(p.candidate, b.namespace))) == Ok(next)
    ensures Apply(db, CommitOp(b)) == next
  {
    assert [p][1..] == [] && CommitAll(next, b, []) == Ok(next);
    assert CommitAll(db, b, [p]) == Ok(next);
  }

  lemma RunFour(db: Db, a: Op, b: Op, c: Op, d: Op)
    ensures Run(db, [a, b, c, d]) == Apply(Apply(Apply(Apply(db, a), b), c), d)
  {
    assert [a, b, c, d][1..] == [b, c, d] && [b, c, d][1..] == [c, d] && [c, d][1..] == [d] && [d][1..] == [];
    var after := Apply(Apply(db, a), b);
    assert Run(after, [c, d]) == Run(Apply(after, c), [d]);
    assert Run(db, [a, b, c, d]) == Run(Apply(db, a), [b, c, d]);
  }

  /** A producer that cites one record twice, newest first, loses the guard: the event validator allows such evidence,
      both versions are stored, and the second cites an older revision than the first. No assessment builds it. */
  lemma AnotherProducerMovesBack()
    ensures var first, second := [Cite(2), Cite(1)], [Cite(1)];
            var db := Run(EmptyDb, [IngestOp(Revision(1)), IngestOp(Revision(2)), CommitOp(Single(first)), CommitOp(Single(second))]);
            && OneIdentity in db.heads && db.heads[OneIdentity] == Head(0, 2)
            && (0, 1) in db.versions && db.versions[(0, 1)].decision.evidence == first
            && (0, 2) in db.versions && db.versions[(0, 2)].decision.evidence == second
            && !Monotone(first, second) && !Assessed(Citing(first).candidate)
  {
    var first, second := [Cite(2), Cite(1)], [Cite(1)];
    RunFour(EmptyDb, IngestOp(Revision(1)), IngestOp(Revision(2)), CommitOp(Single(first)), CommitOp(Single(second)));
    var db := Apply(Apply(EmptyDb, IngestOp(Revision(1))), IngestOp(Revision(2)));
    SingleStores(db, first);
    SecondNotSettled(Stored(db, first), first, second);
    SingleStores(Stored(db, first), second);
    MovedBack();
  }

  lemma SecondNotSettled(db: Db, first: seq<Ref>, second: seq<Ref>)
    requires first == [Cite(2), Cite(1)] && second == [Cite(1)]
    requires Previous(db, OneIdentity).Some? && Previous(db, OneIdentity).value.decision == Citing(first).candidate.decision
    ensures !Settled(db, Citing(second).candidate, OneIdentity)
  {
    assert LastRevision(first, "record") == Some(1);
    assert |first| != |second|;
  }

  lemma MovedBack()
    ensures !Monotone([Cite(2), Cite(1)], [Cite(1)]) && !Assessed(Citing([Cite(2), Cite(1)]).candidate)
  {
    var first, second := [Cite(2), Cite(1)], [Cite(1)];
    assert first[0] in first && second[0] in second;
    assert LastRevision(first, "record") == Some(1);
    if Assessed(Citing(first).candidate) { AssessedCitesOnce(Citing(first).candidate); }
  }

  lemma ValidatorAllowsIt(fold: string -> string)
    ensures A.ValidEvent(
              A.Event("family", AssertionUnknown, Routine, Unverified, ["record"], [Cite(2), Cite(1)],
                      [A.Origin(fold("publisher"), "publisher", ["record"])], {}), fold)
  {
    var origins := [A.Origin(fold("publisher"), "publisher", ["record"])];
    assert origins[..0] == [] && A.Flatten([]) == [] && A.Flatten(origins) == ["record"];
    assert ToSet(["record"]) == {"record"};
    assert (set o | o in origins :: fold(o.publisher)) == {fold("publisher")};
    assert Cite(2) in [Cite(2), Cite(1)];
    assert (set ref | ref in [Cite(2), Cite(1)] :: ref.recordId) == {"record"};
  }
}
