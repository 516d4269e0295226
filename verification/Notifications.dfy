module Notifications {
  /** Which intents a stored event version and the reminder job create (`storage/delivery.py`,
  `storage/operations.py`).

  What a transaction reads besides its own tables (the business configuration, the active users in recipient
  order, and the readiness and scope gates) is its `Env`, which may differ for every version stored. */

  import opened Common
  import opened Contracts

  type SubjectId = nat

  datatype Kind = FirstReport | Update | Correction | Withdrawal | Reminder
  datatype Channel = DryRun | Feishu
  datatype Mode = DryRunMode | TrialMode | ProductionMode
  datatype Policy = AnyReliable | IndependentOnly

  /** The assessed content of an event version; everything that does not take part in a branch is `rest`. */
  datatype Decision = Decision(
    assertion: Assertion, severity: Severity, status: EvidenceStatus, evidence: seq<Ref>, origins: seq<OriginGroup>,
    scope: Scope, rest: string)

  /** An active configured user, with the gates' answers for the item at hand. */
  datatype User = User(recipient: string, isTest: bool, inScope: bool, trialItem: bool)

  datatype Env = Env(
    policy: Option<Policy>, mode: Mode, channel: Channel, reminders: bool, productionReady: bool, trialConfig: bool,
    users: seq<User>)

  datatype Intent = Intent(subject: SubjectId, revision: nat, recipient: string, kind: Kind, channel: Channel)

  datatype Grant = Grant(subject: SubjectId, revision: nat, recipient: string, at: Time, reminders: bool)

  predicate Follows(kind: Kind) { kind.Correction? || kind.Withdrawal? }

  /** The reliable evidence a first report or update needs under the configured policy. */
  predicate Reportable(d: Decision, policy: Option<Policy>) {
    && policy.Some?
    && d.assertion == Occurred
    && d.severity != Routine
    && Reliable(d.status)
    && (policy == Some(IndependentOnly) ==> d.status == IndependentMultiSource)
  }

  predicate LiveAllowed(env: Env, u: User) {
    (env.mode == ProductionMode && env.productionReady) || (env.trialConfig && u.trialItem)
  }

  /** `prior`: recipients of an intent of this subject with an earlier revision. */
  function Prior(intents: seq<Intent>, subject: SubjectId, revision: nat): set<string> {
    set x | x in intents && x.subject == subject && x.revision < revision :: x.recipient
  }

  predicate Granted(d: Decision, u: User) { (d.scope.provenance == Fixture ==> u.isTest) && u.inScope }

  predicate Notified(d: Decision, kind: Kind, env: Env, prior: set<string>, u: User) {
    && Granted(d, u)
    && (Follows(kind) ==> u.recipient in prior)
    && (env.mode == TrialMode ==> u.trialItem)
    && (d.scope.provenance == Trial && !Follows(kind) ==> d.severity == Urgent)
    && (!Follows(kind) ==> Reportable(d, env.policy))
  }

  /** `_intent`: the live-channel gate, then one intent per business key. */
  function AddIntent(intents: seq<Intent>, x: Intent, env: Env, u: User): Result<seq<Intent>> {
    if x.channel != DryRun && !LiveAllowed(env, u) then Err(Forbidden)
    else if x in intents then Ok(intents)
    else Ok(intents + [x])
  }

  /** `create_notifications` over the users in order; a rejected gate rejects them all. */
  function Notify(
    intents: seq<Intent>, subject: SubjectId, revision: nat, d: Decision, kind: Kind, env: Env, prior: set<string>,
    users: seq<User>): Result<seq<Intent>>
    decreases |users|
  {
    if users == [] then Ok(intents)
    else
      var u := users[0];
      var next :=
        if Notified(d, kind, env, prior, u) then
          AddIntent(intents, Intent(subject, revision, u.recipient, kind, env.channel), env, u)
        else Ok(intents);
      if next.Err? then next else Notify(next.value, subject, revision, d, kind, env, prior, users[1..])
  }

  function GrantsFor(subject: SubjectId, revision: nat, d: Decision, env: Env, now: Time, users: seq<User>): seq<Grant> {
    if users == [] then []
    else
      (if Granted(d, users[0]) then [Grant(subject, revision, users[0].recipient, now, env.reminders)] else [])
      + GrantsFor(subject, revision, d, env, now, users[1..])
  }

  /** What the call may add: intents of this very version, kind and channel, each to a user it notifies. */
  lemma {:induction false} NotifyAdds(
    intents: seq<Intent>, subject: SubjectId, revision: nat, d: Decision, kind: Kind, env: Env, prior: set<string>,
    users: seq<User>)
    requires Notify(intents, subject, revision, d, kind, env, prior, users).Ok?
    ensures var out := Notify(intents, subject, revision, d, kind, env, prior, users).value;
            && intents <= out
            && (Distinct(intents) ==> Distinct(out))
            && (forall i :: |intents| <= i < |out| ==>
                  && out[i] == Intent(subject, revision, out[i].recipient, kind, env.channel)
                  && exists u :: u in users && u.recipient == out[i].recipient && Notified(d, kind, env, prior, u)
                       && (env.channel != DryRun ==> LiveAllowed(env, u)))
    decreases |users|
  {
    if users != [] {
      var u := users[0];
      var x := Intent(subject, revision, u.recipient, kind, env.channel);
      var next := if Notified(d, kind, env, prior, u) then AddIntent(intents, x, env, u).value else intents;
      NotifyAdds(next, subject, revision, d, kind, env, prior, users[1..]);
      var out := Notify(intents, subject, revision, d, kind, env, prior, users).value;
      forall i | |intents| <= i < |out|
        ensures out[i] == Intent(subject, revision, out[i].recipient, kind, env.channel)
        ensures exists v :: v in users && v.recipient == out[i].recipient && Notified(d, kind, env, prior, v)
                  && (env.channel != DryRun ==> LiveAllowed(env, v))
      {
        if i < |next| {
          assert out[i] == next[i] == x && u in users;
        }
      }
    }
  }

  /** Everyone who should hear does, exactly once, or the whole call is rejected at the live gate. */
  lemma {:induction false} NotifyReaches(
    intents: seq<Intent>, subject: SubjectId, revision: nat, d: Decision, kind: Kind, env: Env, prior: set<string>,
    users: seq<User>)
    ensures var out := Notify(intents, subject, revision, d, kind, env, prior, users);
            && (out.Ok? ==> forall u :: u in users && Notified(d, kind, env, prior, u) ==>
                  Intent(subject, revision, u.recipient, kind, env.channel) in out.value)
            && (out.Err? <==>
                (env.channel != DryRun && exists u :: u in users && Notified(d, kind, env, prior, u) && !LiveAllowed(env, u)))
    decreases |users|
  {
    if users != [] {
      var u := users[0];
      var x := Intent(subject, revision, u.recipient, kind, env.channel);
      var next := if Notified(d, kind, env, prior, u) then AddIntent(intents, x, env, u) else Ok(intents);
      if next.Ok? {
        NotifyReaches(next.value, subject, revision, d, kind, env, prior, users[1..]);
        var out := Notify(intents, subject, revision, d, kind, env, prior, users);
        if out.Ok? {
          NotifyAdds(next.value, subject, revision, d, kind, env, prior, users[1..]);
          if Notified(d, kind, env, prior, u) {
            var k :| 0 <= k < |next.value| && next.value[k] == x;
            assert out.value[k] == x;
          }
        }
        assert forall v :: v in users <==> v == u || v in users[1..];
      }
    }
  }

  // ---- reminders ----

  /** What the job reads besides its tables: the clock, which intents were delivered (accepted or recorded by a
      dry run), which versions each recipient acknowledged, and the user of each grant while both are active. */
  datatype ReminderEnv = ReminderEnv(
    env: Env, now: Time, delay: nat, delivered: set<Intent>, acknowledged: set<(SubjectId, nat, string)>,
    user: map<Grant, User>)

  predicate Original(x: Intent, g: Grant) {
    (x.subject, x.revision, x.recipient) == (g.subject, g.revision, g.recipient) && !x.kind.Reminder?
  }

  predicate Reminded(x: Intent, g: Grant) {
    (x.subject, x.revision, x.recipient) == (g.subject, g.revision, g.recipient) && x.kind.Reminder?
  }

  predicate ReminderDue(intents: seq<Intent>, heads: set<(SubjectId, nat)>, g: Grant, r: ReminderEnv) {
    && g.reminders && g.at <= r.now - r.delay
    && g in r.user && (g.subject, g.revision) in heads
    && (exists x :: x in intents && Original(x, g) && x in r.delivered)
    && (g.subject, g.revision, g.recipient) !in r.acknowledged
    && (forall x :: x in intents ==> !Reminded(x, g))
    && r.user[g].inScope
    && (r.env.mode == TrialMode ==> r.user[g].trialItem)
  }

  /** `create_due_reminders` over the grants in order. */
  function Remind(intents: seq<Intent>, heads: set<(SubjectId, nat)>, grants: seq<Grant>, r: ReminderEnv): Result<seq<Intent>>
    decreases |grants|
  {
    if grants == [] then Ok(intents)
    else
      var g := grants[0];
      var next :=
        if ReminderDue(intents, heads, g, r) then
          AddIntent(intents, Intent(g.subject, g.revision, g.recipient, Reminder, r.env.channel), r.env, r.user[g])
        else Ok(intents);
      if next.Err? then next else Remind(next.value, heads, grants[1..], r)
  }

  /** Each reminder follows an intent of the same version and recipient that was delivered and is its first. */
  lemma {:induction false} RemindAdds(intents: seq<Intent>, heads: set<(SubjectId, nat)>, grants: seq<Grant>, r: ReminderEnv)
    requires Remind(intents, heads, grants, r).Ok?
    ensures var out := Remind(intents, heads, grants, r).value;
            && intents <= out
            && (Distinct(intents) ==> Distinct(out))
            && forall i :: |intents| <= i < |out| ==>
                 && out[i].kind == Reminder
                 && (out[i].subject, out[i].revision) in heads
                 && (exists j :: 0 <= j < i && out[j].subject == out[i].subject && out[j].revision == out[i].revision
                       && out[j].recipient == out[i].recipient && !out[j].kind.Reminder? && out[j] in r.delivered)
                 && forall j :: 0 <= j < i && out[j].kind.Reminder? ==>
                      (out[j].subject, out[j].revision, out[j].recipient) != (out[i].subject, out[i].revision, out[i].recipient)
    decreases |grants|
  {
    if grants != [] {
      var g := grants[0];
      var x := Intent(g.subject, g.revision, g.recipient, Reminder, r.env.channel);
      if ReminderDue(intents, heads, g, r) {
        assert Reminded(x, g);
        var next := AddIntent(intents, x, r.env, r.user[g]).value;
        assert next == intents + [x];
        RemindAdds(next, heads, grants[1..], r);
        var out := Remind(intents, heads, grants, r).value;
        assert out[|intents|] == x && forall j :: 0 <= j < |intents| ==> out[j] == intents[j];
        var o :| o in intents && Original(o, g) && o in r.delivered;
        var k :| 0 <= k < |intents| && intents[k] == o;
        assert out[k] == o;
        forall j | 0 <= j < |intents| && out[j].kind.Reminder?
          ensures (out[j].subject, out[j].revision, out[j].recipient) != (x.subject, x.revision, x.recipient)
        {
          assert !Reminded(intents[j], g);
        }
      } else {
        RemindAdds(intents, heads, grants[1..], r);
      }
    }
  }
}
