module DecisionStore {
  /** The repository methods of `storage/decisions.py`, `storage/delivery.py` and `storage/operations.py` that store
  event versions, notifications and reminders. A rejected transaction restores every table. */

  import opened Common
  import opened Contracts
  import opened Notifications
  import opened Decisions

  /** Each answer is the head of its candidate's family. */
  predicate Answered(db: Db, ps: seq<Proposal>, namespace: string, answers: seq<Head>)
    requires |answers| <= |ps|
  {
    forall k :: 0 <= k < |answers| ==> HeadOf(db, IdentityOf(ps[k].candidate, namespace)) == Some(answers[k])
  }

  lemma OneMoreAnswer(db: Db, b: Batch, ps: seq<Proposal>, answers: seq<Head>, head: Head)
    requires OneFamilyEach(ps) && |answers| < |ps| && Answered(db, ps, b.namespace, answers)
    requires var identity := IdentityOf(ps[|answers|].candidate, b.namespace);
             var next := CommitOne(db, ps[|answers|], b.namespace, Allowed(b, identity));
             next.Ok? && HeadOf(next.value, identity) == Some(head)
    ensures var identity := IdentityOf(ps[|answers|].candidate, b.namespace);
            Answered(CommitOne(db, ps[|answers|], b.namespace, Allowed(b, identity)).value, ps, b.namespace, answers + [head])
  {
    var p := ps[|answers|];
    var allowed := Allowed(b, IdentityOf(p.candidate, b.namespace));
    forall k | 0 <= k < |answers|
      ensures HeadOf(CommitOne(db, p, b.namespace, allowed).value, IdentityOf(ps[k].candidate, b.namespace)) == Some(answers[k])
    {
      assert ps[k].candidate.family != p.candidate.family;
      CommitOneHead(db, p, b.namespace, allowed, IdentityOf(ps[k].candidate, b.namespace));
    }
  }

  class DecisionRepository {
    var records: map<RecordKey, SourceRecord>
    var heads: map<Identity, Head>
    var versions: map<(SubjectId, nat), Version>
    var intents: seq<Intent>
    var grants: seq<Grant>
    var nextId: SubjectId

    constructor ()
      ensures Rows() == EmptyDb
    {
      records, heads, versions, intents, grants, nextId := map[], map[], map[], [], [], 0;
    }

    function Rows(): Db
      reads this
    {
      Db(records, heads, versions, intents, grants, nextId)
    }

    method Rollback(db: Db)
      modifies this
      ensures Rows() == db
    {
      records, heads, versions := db.records, db.heads, db.versions;
      intents, grants, nextId := db.intents, db.grants, db.nextId;
    }

    /** `_intent`. */
    method AddIntentRow(x: Intent, env: Env, u: User) returns (ok: bool)
      modifies this`intents
      ensures ok <==> AddIntent(old(intents), x, env, u).Ok?
      ensures !ok ==> AddIntent(old(intents), x, env, u) == Err(Forbidden)
      ensures intents == if ok then AddIntent(old(intents), x, env, u).value else old(intents)
    {
      if x.channel != DryRun && !LiveAllowed(env, u) {
        return false;
      }
      if x !in intents {
        intents := intents + [x];
      }
      ok := true;
    }

    /** The body of the loop over users. */
    method NotifyUser(head: Head, d: Decision, kind: Kind, env: Env, now: Time, prior: set<string>, user: User) returns (ok: bool)
      modifies this`intents, this`grants
      ensures var spec :=
                if Notified(d, kind, env, prior, user) then
                  AddIntent(old(intents), Intent(head.subject, head.revision, user.recipient, kind, env.channel), env, user)
                else Ok(old(intents));
              && (ok <==> spec.Ok?) && (if ok then intents == spec.value else spec == Err(Forbidden))
      ensures grants == old(grants)
                + if Granted(d, user) then [Grant(head.subject, head.revision, user.recipient, now, env.reminders)] else []
    {
      if d.scope.provenance == Fixture && !user.isTest {
        return true;
      }
      if !user.inScope {
        return true;
      }
      grants := grants + [Grant(head.subject, head.revision, user.recipient, now, env.reminders)];
      if Follows(kind) && user.recipient !in prior {
        return true;
      }
      if env.mode == TrialMode && !user.trialItem {
        return true;
      }
      if d.scope.provenance == Trial && !Follows(kind) && d.severity != Urgent {
        return true;
      }
      if !Follows(kind) {
        if env.policy.None? || d.assertion != Occurred || d.severity == Routine || !Reliable(d.status)
           || (env.policy == Some(IndependentOnly) && d.status != IndependentMultiSource) {
          return true;
        }
      }
      ok := AddIntentRow(Intent(head.subject, head.revision, user.recipient, kind, env.channel), env, user);
    }

    /** `create_notifications`. */
    method CreateNotifications(head: Head, d: Decision, kind: Kind, env: Env, now: Time) returns (ok: bool)
      modifies this`intents, this`grants
      ensures var prior := if Follows(kind) then Prior(old(intents), head.subject, head.revision) else {};
              var spec := Notify(old(intents), head.subject, head.revision, d, kind, env, prior, env.users);
              && (ok <==> spec.Ok?)
              && (if ok then intents == spec.value else spec == Err(Forbidden))
      ensures ok ==> grants == old(grants) + GrantsFor(head.subject, head.revision, d, env, now, env.users)
    {
      var prior := if Follows(kind) then Prior(intents, head.subject, head.revision) else {};
      var i := 0;
      while i < |env.users|
        invariant i <= |env.users|
        invariant Notify(old(intents), head.subject, head.revision, d, kind, env, prior, env.users)
                    == Notify(intents, head.subject, head.revision, d, kind, env, prior, env.users[i..])
        invariant old(grants) + GrantsFor(head.subject, head.revision, d, env, now, env.users)
                    == grants + GrantsFor(head.subject, head.revision, d, env, now, env.users[i..])
      {
        var user := env.users[i];
        assert env.users[i..][0] == user && env.users[i..][1..] == env.users[i + 1..];
        i := i + 1;
        var notified := NotifyUser(head, d, kind, env, now, prior, user);
        if !notified {
          return false;
        }
      }
      ok := true;
    }

    /** The body of the loop over candidates: answer with the head, or store the next version. */
    method CommitCandidate(p: Proposal, namespace: string, allowed: set<RecordKey>) returns (res: Result<Head>)
      modifies this
      ensures var spec := CommitOne(old(Rows()), p, namespace, allowed);
              && (res.Ok? <==> spec.Ok?)
              && (res.Ok? ==> Rows() == spec.value && HeadOf(Rows(), IdentityOf(p.candidate, namespace)) == Some(res.value))
              && (res.Err? ==> res.code == spec.code)
    {
      var c, identity := p.candidate, IdentityOf(p.candidate, namespace);
      if !(Refs(c.decision.evidence) <= allowed) {
        return Err(InvalidOutput);
      }
      if !EvidenceOk(records, c.decision) {
        return Err(InvalidOutput);
      }
      var previous := Previous(Rows(), identity);
      if previous.Some? {
        if Regresses(previous.value.decision.evidence, c.decision.evidence) {
          return Ok(heads[identity]);
        }
        if previous.value.decision == c.decision {
          return Ok(heads[identity]);
        }
      }
      var head := NextHead(Rows(), identity);
      if identity !in heads {
        nextId := nextId + 1;
      }
      versions := versions[(head.subject, head.revision) := NewVersion(c, head.revision)];
      heads := heads[identity := head];
      var notified := CreateNotifications(head, c.decision, KindOf(head.revision, c.decision, previous), p.env, p.now);
      if !notified {
        return Err(Forbidden);
      }
      res := Ok(head);
    }

    /** `commit_assessments`: all candidates or none; each answer is its family's head. */
    method CommitAssessments(b: Batch) returns (res: Result<seq<Head>>)
      modifies this
      ensures res.Ok? <==> Commit(old(Rows()), b).Ok?
      ensures Rows() == Apply(old(Rows()), CommitOp(b))
      ensures res.Err? ==> res.code == Commit(old(Rows()), b).code
      ensures res.Ok? ==> |res.value| == |Ordered(b.proposals)|
      ensures res.Ok? ==> forall k :: 0 <= k < |res.value| ==>
                     HeadOf(Rows(), IdentityOf(Ordered(b.proposals)[k].candidate, b.namespace)) == Some(res.value[k])
    {
      if !b.claimsLive {
        return Err(RevisionMismatch);
      }
      var saved := Rows();
      var ordered := Ordered(b.proposals);
      if !OneFamilyEach(ordered) {
        return Err(InvalidOutput);
      }
      if b.snapshot.Some? {
        if Identities(b.proposals, b.namespace) != b.snapshot.value.heads.Keys {
          return Err(InvalidOutput);
        }
        if !HeadsHold(saved, b.snapshot.value) {
          return Err(RevisionMismatch);
        }
      }
      var output: seq<Head> := [];
      var i := 0;
      while i < |ordered|
        invariant i <= |ordered| && |output| == i
        invariant CommitAll(saved, b, ordered) == CommitAll(Rows(), b, ordered[i..])
        invariant Answered(Rows(), ordered, b.namespace, output)
      {
        var p := ordered[i];
        CommitAllNext(Rows(), b, ordered, i);
        ghost var before := Rows();
        var answer := CommitCandidate(p, b.namespace, Allowed(b, IdentityOf(p.candidate, b.namespace)));
        if answer.Err? {
          Rollback(saved);
          return Err(answer.code);
        }
        OneMoreAnswer(before, b, ordered, output, answer.value);
        output := output + [answer.value];
        i := i + 1;
      }
      res := Ok(output);
    }

    /** `prepare_assessment`: reads only. */
    method PrepareAssessment(claims: seq<RecordKey>, cs: seq<Candidate>, namespace: string) returns (res: Result<Snapshot>)
      ensures res == StartPrepare(Rows(), claims, cs, namespace)
    {
      var claimed := set k | k in claims;
      var snapshot := Snapshot(map[], map[], claims);
      var i := 0;
      while i < |cs|
        invariant i <= |cs|
        invariant StartPrepare(Rows(), claims, cs, namespace) == Prepare(Rows(), claimed, cs[i..], namespace, snapshot)
      {
        var c, identity := cs[i], IdentityOf(cs[i], namespace);
        assert cs[i..][0] == c && cs[i..][1..] == cs[i + 1..];
        if identity in snapshot.heads {
          return Err(InvalidOutput);
        }
        if !(Refs(c.decision.evidence) <= claimed) {
          return Err(InvalidOutput);
        }
        if !EvidenceOk(records, c.decision) {
          return Err(InvalidOutput);
        }
        var refs, known := Refs(c.decision.evidence), snapshot.records;
        var previous := Previous(Rows(), identity);
        if previous.Some? {
          refs := refs + Refs(previous.value.decision.evidence);
          known := AddRefs(known, previous.value.decision.evidence);
        }
        assert refs == FamilyRefs(Rows(), c, identity);
        snapshot := Snapshot(snapshot.heads[identity := HeadOf(Rows(), identity)], snapshot.families[identity := refs], known);
        if |known| > 64 || Size(records, known) > 100_000 {
          return Err(InvalidInput);
        }
        i := i + 1;
      }
      res := Ok(snapshot);
    }

    /** `create_due_reminders`: how many were created, or none at all. */
    method CreateDueReminders(r: ReminderEnv) returns (res: Result<nat>)
      modifies this`intents
      ensures res.Ok? <==> Attempt(old(Rows()), RemindOp(r)).Ok?
      ensures Rows() == Apply(old(Rows()), RemindOp(r))
      ensures res.Ok? ==> res.value == |intents| - |old(intents)|
    {
      var saved, current := intents, Heads(Rows());
      var i, count := 0, 0;
      while i < |grants|
        invariant i <= |grants|
        invariant Remind(saved, current, grants, r) == Remind(intents, current, grants[i..], r)
        invariant |intents| == |saved| + count
      {
        var g := grants[i];
        assert grants[i..][0] == g && grants[i..][1..] == grants[i + 1..];
        i := i + 1;
        if !ReminderDue(intents, current, g, r) {
          continue;
        }
        var x := Intent(g.subject, g.revision, g.recipient, Reminder, r.env.channel);
        assert Reminded(x, g) && x !in intents;
        var added := AddIntentRow(x, r.env, r.user[g]);
        if !added {
          intents := saved;
          return Err(Forbidden);
        }
        count := count + 1;
      }
      res := Ok(count);
    }
  }
}
