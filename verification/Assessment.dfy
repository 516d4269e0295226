module Assessment {
  /** Validation of source assertions into event candidates (`intelligence/assessment.py`).

  Model claims are unverified input. The rule search (`Rules.Match`), the wording cues, case folding and the
  family-to-event matching are parameters; `Inputs` fixes them for one call. */

  import opened Common
  import opened Contracts
  import opened FragmentView
  import opened OccurrenceView
  import opened Revisions
  import opened Rules

  /** The wording cues searched for in the case-folded view of title and excerpt. */
  datatype Cues = Cues(
    denied: string -> bool, planned: string -> bool, uncertain: string -> bool, archive: string -> bool, blocked: string -> bool)

  datatype Claim = Claim(reference: Ref, assertion: Assertion)

  datatype Review = Review(
    reference: Ref, contentHash: (string, string), assertion: Assertion, severity: Severity, status: EvidenceStatus)

  datatype Policy = Policy(allowSingleSource: bool, publishers: seq<string>, maxAgeHours: nat)

  datatype Inputs = Inputs(
    records: seq<SourceRecord>, now: Time, reviews: map<RecordKey, Review>, rules: SourceRecord -> Option<RuleMatch>,
    policy: Policy, cues: Cues, fold: string -> string, eventOf: Family -> string, degradation: Option<string>)

  type Claims = map<RecordKey, Claim>

  // ---- guarded_status ----

  predicate Trimmable(c: char) { Delimiter(c) || c == ' ' || c == '\t' || c == '\r' }

  /** The excerpt says nothing but that there were no casualties. */
  predicate DenialOnly(r: SourceRecord) {
    Context(r.excerpt) != r.excerpt && forall i :: 0 <= i < |r.excerpt| ==> Trimmable(Context(r.excerpt)[i])
  }

  function CueText(r: SourceRecord): string { Context(r.title + "\n" + r.excerpt) }

  predicate InFuture(r: SourceRecord, now: Time) {
    || (r.publishedAt.Some? && r.publishedAt.value > now)
    || (r.occurredAt.Some? && r.occurredAt.value > now)
    || (r.availableAt.Some? && r.availableAt.value > now)
  }

  function GuardedStatus(r: SourceRecord, proposed: Assertion, now: Time, cues: Cues): Assertion {
    if proposed == Occurred && DenialOnly(r) then AssertionUnknown
    else
      var text := CueText(r);
      if cues.denied(text) && cues.planned(text) then AssertionUnknown
      else if cues.denied(text) then Denied
      else if cues.planned(text) then Planned
      else if InFuture(r, now) || cues.uncertain(text) || cues.archive(text) || r.quality != ValidTime
              || (proposed == Occurred && cues.blocked(text)) then AssertionUnknown
      else proposed
  }

  /** Occurrence is never established here: it must be proposed, and then survives exactly when nothing in the text
      or the times speaks against it. */
  lemma OccurredOnlyIfProposed(r: SourceRecord, proposed: Assertion, now: Time, cues: Cues)
    ensures GuardedStatus(r, proposed, now, cues) == Occurred <==>
              && proposed == Occurred && !DenialOnly(r) && !InFuture(r, now) && r.quality == ValidTime
              && var text := CueText(r);
                 !cues.denied(text) && !cues.planned(text) && !cues.uncertain(text) && !cues.archive(text) && !cues.blocked(text)
  {
  }

  // ---- one record ----

  datatype Note = TimeUnknown | Qualified | Old | NotVerified | Degraded(reason: string)

  /** A selected record; `verified` means a review or an approved rule vouches for it. */
  datatype Judged = Judged(
    record: SourceRecord, reference: Ref, status: Assertion, severity: Severity, verified: bool, notes: set<Note>)

  predicate Stale(occurred: Option<Time>, published: Option<Time>, now: Time, hours: nat) {
    var at := if occurred.Some? then occurred else published;
    at.None? || at.value < now - 3600 * hours
  }

  /** What the review, the rule match or the claim says of a record, in that order of authority. */
  datatype Chosen = Chosen(
    reference: Ref, proposed: Assertion, severity: Severity, vouched: bool, occurred: Option<Time>, notes: set<Note>)

  predicate Quotes(ref: Ref, r: SourceRecord) { ValidReference(ref, map[KeyOf(r) := r]) }

  function Choose(x: Inputs, claims: Claims, r: SourceRecord): Result<Chosen>
    requires QuoteReference(r).Some?
  {
    if KeyOf(r) in x.reviews then
      var review := x.reviews[KeyOf(r)];
      if review.contentHash != r.contentHash || !Quotes(review.reference, r) then Err(InvalidInput)
      else
        Ok(Chosen(review.reference, review.assertion, review.severity,
                  review.status == CredibleSingleSource || review.status == PublisherStatement, r.occurredAt, {}))
    else if x.rules(r).Some? then
      var m := x.rules(r).value;
      if !Quotes(m.reference, r) then Err(InvalidInput)
      else Ok(Chosen(m.reference, Occurred, m.severity, true, m.occurredAt, if m.occurredAt.None? then {TimeUnknown} else {}))
    else if KeyOf(r) in claims then
      Ok(Chosen(claims[KeyOf(r)].reference, claims[KeyOf(r)].assertion, Routine, false, r.occurredAt, {}))
    else Ok(Chosen(QuoteReference(r).value, AssertionUnknown, Routine, false, r.occurredAt, {}))
  }

  /** The end of the body: downgrade the severity of anything unverified, old or not occurred. */
  function Settle(x: Inputs, r: SourceRecord, c: Chosen): Judged {
    var status := GuardedStatus(r, c.proposed, x.now, x.cues);
    var verified := c.vouched && status == c.proposed;
    var stale := Stale(c.occurred, r.publishedAt, x.now, x.policy.maxAgeHours);
    Judged(
      r, c.reference, status, if stale || !verified || status != Occurred then Routine else c.severity, verified,
      c.notes + (if status != c.proposed then {Qualified} else {}) + (if stale then {Old} else {})
      + (if !verified then {NotVerified} else {}))
  }

  /** The body of the loop over one event's records; a record with nothing to quote is passed over. */
  function Judge(x: Inputs, claims: Claims, r: SourceRecord): Result<Option<Judged>> {
    if QuoteReference(r).None? then Ok(None)
    else
      var chosen := Choose(x, claims, r);
      if chosen.Err? then Err(chosen.code) else Ok(Some(Settle(x, r, chosen.value)))
  }

  function JudgeAll(x: Inputs, claims: Claims, grouped: seq<SourceRecord>): Result<seq<Judged>> {
    if grouped == [] then Ok([])
    else
      var before := JudgeAll(x, claims, grouped[..|grouped| - 1]);
      if before.Err? then before
      else
        var last := Judge(x, claims, grouped[|grouped| - 1]);
        if last.Err? then Err(last.code)
        else Ok(if last.value.Some? then before.value + [last.value.value] else before.value)
  }

  // ---- one event ----

  /** `origins`: the selected records under each folded publisher, in order of first appearance. */
  datatype Origin = Origin(key: string, publisher: string, recordIds: seq<string>)

  function OriginPlace(origins: seq<Origin>, key: string): (i: nat)
    ensures i <= |origins| && (i < |origins| ==> origins[i].key == key)
    ensures forall k :: 0 <= k < i ==> origins[k].key != key
  {
    if origins == [] then 0 else if origins[0].key == key then 0 else OriginPlace(origins[1..], key) + 1
  }

  function AddOrigin(fold: string -> string, origins: seq<Origin>, r: SourceRecord): seq<Origin> {
    var key := fold(Strip(r.publisher));
    var i := OriginPlace(origins, key);
    if i == |origins| then origins + [Origin(key, Strip(r.publisher), [r.recordId])]
    else origins[i := origins[i].(recordIds := origins[i].recordIds + [r.recordId])]
  }

  function Origins(fold: string -> string, judged: seq<Judged>): seq<Origin> {
    if judged == [] then [] else AddOrigin(fold, Origins(fold, judged[..|judged| - 1]), judged[|judged| - 1].record)
  }

  predicate AllVerified(judged: seq<Judged>) { forall j :: 0 <= j < |judged| ==> judged[j].verified }

  predicate SameStatus(judged: seq<Judged>) { forall j :: 0 <= j < |judged| ==> judged[j].status == judged[0].status }

  predicate Trusted(x: Inputs, key: string) {
    exists i :: 0 <= i < |x.policy.publishers| && Strip(x.fold(x.policy.publishers[i])) == key
  }

  function StatusOf(x: Inputs, judged: seq<Judged>): EvidenceStatus {
    var origins := Origins(x.fold, judged);
    if !SameStatus(judged) then Conflicting
    else if AllVerified(judged) && |origins| > 1 then IndependentMultiSource
    else if AllVerified(judged) && x.policy.allowSingleSource && forall i :: 0 <= i < |origins| ==> Trusted(x, origins[i].key) then
      CredibleSingleSource
    else Unverified
  }

  function Rank(s: Severity): nat { if s == Urgent then 2 else if s == Important then 1 else 0 }

  function MaxSeverity(judged: seq<Judged>): (s: Severity)
    ensures s != Routine ==> exists j :: 0 <= j < |judged| && judged[j].severity == s
    ensures forall j :: 0 <= j < |judged| ==> Rank(judged[j].severity) <= Rank(s)
  {
    if judged == [] then Routine
    else
      var before, last := MaxSeverity(judged[..|judged| - 1]), judged[|judged| - 1].severity;
      if Rank(last) > Rank(before) then last else before
  }

  datatype Event = Event(
    eventId: string, assertion: Assertion, severity: Severity, status: EvidenceStatus, support: seq<string>,
    evidence: seq<Ref>, origins: seq<Origin>, unknowns: set<Note>)

  function Notes(judged: seq<Judged>): set<Note> {
    if judged == [] then {} else Notes(judged[..|judged| - 1]) + judged[|judged| - 1].notes
  }

  function Support(judged: seq<Judged>): (r: seq<string>)
    ensures |r| == |judged| && forall k :: 0 <= k < |r| ==> r[k] == judged[k].record.recordId
  {
    seq(|judged|, k requires 0 <= k < |judged| => judged[k].record.recordId)
  }

  function Evidence(judged: seq<Judged>): (r: seq<Ref>)
    ensures |r| == |judged| && forall k :: 0 <= k < |r| ==> r[k] == judged[k].reference
  {
    seq(|judged|, k requires 0 <= k < |judged| => judged[k].reference)
  }

  function Conclude(x: Inputs, eventId: string, judged: seq<Judged>): Event
    requires judged != []
  {
    var status := StatusOf(x, judged);
    Event(
      eventId, if SameStatus(judged) then judged[0].status else AssertionUnknown,
      if status == Unverified || status == Conflicting then Routine else MaxSeverity(judged), status,
      Support(judged), Evidence(judged), Origins(x.fold, judged),
      Notes(judged) + if x.degradation.Some? then {Degraded(x.degradation.value)} else {})
  }

  // ---- the event validator ----

  function Flatten(origins: seq<Origin>): seq<string> {
    if origins == [] then [] else Flatten(origins[..|origins| - 1]) + origins[|origins| - 1].recordIds
  }

  /** `EventAssessment.validate_evidence`. */
  predicate ValidEvent(e: Event, fold: string -> string) {
    var support := ToSet(e.support);
    var publishers := set o | o in e.origins :: fold(o.publisher);
    && |support| == |e.support|
    && (set ref | ref in e.evidence :: ref.recordId) == support
    && ToSet(Flatten(e.origins)) == support && |Flatten(e.origins)| == |support|
    && |publishers| == |e.origins|
    && (e.status == IndependentMultiSource ==> |publishers| >= 2)
  }

  // ---- all events ----

  datatype Group = Group(eventId: string, records: seq<SourceRecord>)

  function GroupPlace(groups: seq<Group>, eventId: string): (i: nat)
    ensures i <= |groups| && (i < |groups| ==> groups[i].eventId == eventId)
  {
    if groups == [] then 0 else if groups[0].eventId == eventId then 0 else GroupPlace(groups[1..], eventId) + 1
  }

  function AddToGroup(eventOf: Family -> string, groups: seq<Group>, r: SourceRecord): seq<Group> {
    var id := eventOf(FamilyOf(r));
    var i := GroupPlace(groups, id);
    if i == |groups| then groups + [Group(id, [r])] else groups[i := Group(id, groups[i].records + [r])]
  }

  function Groups(eventOf: Family -> string, latest: seq<SourceRecord>): seq<Group> {
    if latest == [] then [] else AddToGroup(eventOf, Groups(eventOf, latest[..|latest| - 1]), latest[|latest| - 1])
  }

  function AssessGroups(x: Inputs, claims: Claims, groups: seq<Group>): Result<seq<Event>> {
    if groups == [] then Ok([])
    else
      var before := AssessGroups(x, claims, groups[..|groups| - 1]);
      if before.Err? then before
      else
        var judged := JudgeAll(x, claims, groups[|groups| - 1].records);
        if judged.Err? then Err(judged.code)
        else if judged.value == [] then before
        else Ok(before.value + [Conclude(x, groups[|groups| - 1].eventId, judged.value)])
  }

  /** The events before they are constructed. */
  function Assess(x: Inputs, claims: Claims): Result<seq<Event>> {
    AssessGroups(x, claims, Groups(x.eventOf, Latest(x.records)))
  }

  /** Constructing an event validates it; the first one refused ends the assessment. */
  function ConstructGroups(x: Inputs, claims: Claims, groups: seq<Group>): Result<seq<Event>> {
    if groups == [] then Ok([])
    else
      var before := ConstructGroups(x, claims, groups[..|groups| - 1]);
      if before.Err? then before
      else
        var judged := JudgeAll(x, claims, groups[|groups| - 1].records);
        if judged.Err? then Err(judged.code)
        else if judged.value == [] then before
        else Constructed(x, before.value, Conclude(x, groups[|groups| - 1].eventId, judged.value))
  }

  function Constructed(x: Inputs, before: seq<Event>, e: Event): Result<seq<Event>> {
    if ValidEvent(e, x.fold) then Ok(before + [e]) else Err(InvalidOutput)
  }

  /** What `_validate` answers. */
  function Construct(x: Inputs, claims: Claims): Result<seq<Event>> {
    ConstructGroups(x, claims, Groups(x.eventOf, Latest(x.records)))
  }

  // ---- what claims can and cannot change ----

  /** The same record under two claim maps: equal unless nothing vouches for it, and then routine either way. */
  predicate Alike(a: Judged, b: Judged) {
    a.record == b.record && a.severity == b.severity && a.verified == b.verified && (a.verified ==> a == b)
  }

  lemma JudgeAlike(x: Inputs, c: Claims, d: Claims, r: SourceRecord)
    ensures var a, b := Judge(x, c, r), Judge(x, d, r);
            && (a.Err? <==> b.Err?) && (a.Err? ==> a == b)
            && (a.Ok? ==> (a.value.Some? <==> b.value.Some?) && (a.value.Some? ==> Alike(a.value.value, b.value.value)))
  {
  }

  predicate AllAlike(a: seq<Judged>, b: seq<Judged>) {
    |a| == |b| && forall k :: 0 <= k < |a| ==> Alike(a[k], b[k])
  }

  lemma {:induction false} JudgeAllAlike(x: Inputs, c: Claims, d: Claims, grouped: seq<SourceRecord>)
    ensures var a, b := JudgeAll(x, c, grouped), JudgeAll(x, d, grouped);
            && (a.Err? <==> b.Err?) && (a.Err? ==> a == b) && (a.Ok? ==> AllAlike(a.value, b.value))
    decreases |grouped|
  {
    if grouped != [] {
      JudgeAllAlike(x, c, d, grouped[..|grouped| - 1]);
      JudgeAlike(x, c, d, grouped[|grouped| - 1]);
    }
  }

  lemma {:induction false} SameMax(a: seq<Judged>, b: seq<Judged>)
    requires AllAlike(a, b)
    ensures MaxSeverity(a) == MaxSeverity(b)
  {
    if a != [] { SameMax(a[..|a| - 1], b[..|b| - 1]); }
  }

  lemma ConcludeAlike(x: Inputs, eventId: string, a: seq<Judged>, b: seq<Judged>)
    requires a != [] && AllAlike(a, b)
    ensures Conclude(x, eventId, a).severity == Conclude(x, eventId, b).severity
    ensures Conclude(x, eventId, a).eventId == Conclude(x, eventId, b).eventId
  {
    SameMax(a, b);
    if AllVerified(a) {
      assert forall k :: 0 <= k < |a| ==> Alike(a[k], b[k]) && a[k] == b[k];
      assert a == b;
    } else {
      var k :| 0 <= k < |a| && !a[k].verified;
      assert Alike(a[k], b[k]) && !b[k].verified;
    }
  }

  /** The same events with the same severities, or the same rejection. */
  predicate EventsAlike(a: Result<seq<Event>>, b: Result<seq<Event>>) {
    && (a.Err? <==> b.Err?) && (a.Err? ==> a == b)
    && (a.Ok? ==> |a.value| == |b.value| && forall k :: 0 <= k < |a.value| ==>
          a.value[k].eventId == b.value[k].eventId && a.value[k].severity == b.value[k].severity)
  }

  lemma AppendAlike(a: seq<Event>, b: seq<Event>, e: Event, f: Event)
    requires EventsAlike(Ok(a), Ok(b)) && e.eventId == f.eventId && e.severity == f.severity
    ensures EventsAlike(Ok(a + [e]), Ok(b + [f]))
  {
  }

  lemma {:induction false} GroupsAlike(x: Inputs, c: Claims, d: Claims, groups: seq<Group>)
    ensures EventsAlike(AssessGroups(x, c, groups), AssessGroups(x, d, groups))
    decreases |groups|
  {
    if groups != [] {
      var rest, last := groups[..|groups| - 1], groups[|groups| - 1];
      GroupsAlike(x, c, d, rest);
      JudgeAllAlike(x, c, d, last.records);
      var a, b := JudgeAll(x, c, last.records), JudgeAll(x, d, last.records);
      if AssessGroups(x, c, rest).Ok? && a.Ok? && a.value != [] {
        ConcludeAlike(x, last.eventId, a.value, b.value);
        AppendAlike(
          AssessGroups(x, c, rest).value, AssessGroups(x, d, rest).value,
          Conclude(x, last.eventId, a.value), Conclude(x, last.eventId, b.value));
      }
    }
  }

  /** Main result: no model output changes a severity, or whether the assessment is rejected. */
  lemma ClaimsNeverChangeSeverity(x: Inputs, c: Claims, d: Claims)
    ensures EventsAlike(Assess(x, c), Assess(x, d))
  {
    GroupsAlike(x, c, d, Groups(x.eventOf, Latest(x.records)));
  }

  // ---- what a severity above routine means ----

  /** A review whose status is credible, bound to this very content, or a match of an approved rule. */
  predicate Vouched(x: Inputs, r: SourceRecord) {
    if KeyOf(r) in x.reviews then
      var review := x.reviews[KeyOf(r)];
      review.contentHash == r.contentHash && (review.status == CredibleSingleSource || review.status == PublisherStatement)
    else x.rules(r).Some?
  }

  predicate JudgedSoundly(x: Inputs, j: Judged) {
    && (j.verified ==> Vouched(x, j.record))
    && (j.severity != Routine ==> j.verified && j.status == Occurred)
  }

  lemma {:induction false} JudgedAreSound(x: Inputs, claims: Claims, grouped: seq<SourceRecord>)
    requires JudgeAll(x, claims, grouped).Ok?
    ensures forall k :: 0 <= k < |JudgeAll(x, claims, grouped).value| ==>
              var j := JudgeAll(x, claims, grouped).value[k];
              JudgedSoundly(x, j) && j.record in grouped
    decreases |grouped|
  {
    if grouped != [] { JudgedAreSound(x, claims, grouped[..|grouped| - 1]); }
  }

  /** An event of the result, the group it was built of and the group's judged records. */
  ghost predicate BuiltFrom(x: Inputs, claims: Claims, e: Event, g: Group, judged: seq<Judged>) {
    JudgeAll(x, claims, g.records) == Ok(judged) && judged != [] && e == Conclude(x, g.eventId, judged)
  }

  lemma {:induction false} EventsBuilt(x: Inputs, claims: Claims, groups: seq<Group>, e: Event)
    requires AssessGroups(x, claims, groups).Ok? && e in AssessGroups(x, claims, groups).value
    ensures exists g, judged :: g in groups && BuiltFrom(x, claims, e, g, judged)
    decreases |groups|
  {
    var rest, last := groups[..|groups| - 1], groups[|groups| - 1];
    if e in AssessGroups(x, claims, rest).value {
      EventsBuilt(x, claims, rest, e);
      var g, judged :| g in rest && BuiltFrom(x, claims, e, g, judged);
      assert g in groups;
    } else {
      assert BuiltFrom(x, claims, e, last, JudgeAll(x, claims, last.records).value) && last in groups;
    }
  }

  lemma {:induction false} GroupsHold(eventOf: Family -> string, latest: seq<SourceRecord>)
    ensures forall g, r :: g in Groups(eventOf, latest) && r in g.records ==> r in latest
  {
    if latest != [] {
      var rest, r := latest[..|latest| - 1], latest[|latest| - 1];
      GroupsHold(eventOf, rest);
      var before, after := Groups(eventOf, rest), Groups(eventOf, latest);
      var i := GroupPlace(before, eventOf(FamilyOf(r)));
      forall g, q | g in after && q in g.records ensures q in latest {
        if g !in before { assert g == after[i]; }
        if q != r { assert q in rest; }
      }
    }
  }

  /** Main result: a severity above routine means the event occurred, its sources do not conflict, and each of its
      supporting records is an input record that a review or an approved rule vouches for. */
  lemma SeverityEarned(x: Inputs, claims: Claims, e: Event)
    requires Assess(x, claims).Ok? && e in Assess(x, claims).value && e.severity != Routine
    ensures e.assertion == Occurred
    ensures e.status == IndependentMultiSource || e.status == CredibleSingleSource
    ensures forall k :: 0 <= k < |e.support| ==>
              exists r :: r in x.records && r.recordId == e.support[k] && Vouched(x, r)
  {
    var eventId, judged := BuiltSoundly(x, claims, e);
    ConcludedEarned(x, eventId, judged, x.records);
  }

  lemma BuiltSoundly(x: Inputs, claims: Claims, e: Event) returns (eventId: string, judged: seq<Judged>)
    requires Assess(x, claims).Ok? && e in Assess(x, claims).value
    ensures judged != [] && e == Conclude(x, eventId, judged)
    ensures forall k :: 0 <= k < |judged| ==> JudgedSoundly(x, judged[k]) && judged[k].record in x.records
  {
    var groups := Groups(x.eventOf, Latest(x.records));
    EventsBuilt(x, claims, groups, e);
    var g: Group, js: seq<Judged> :| g in groups && BuiltFrom(x, claims, e, g, js);
    eventId, judged := g.eventId, js;
    JudgedAreSound(x, claims, g.records);
    GroupedAreInput(x, g);
  }

  lemma GroupedAreInput(x: Inputs, g: Group)
    requires g in Groups(x.eventOf, Latest(x.records))
    ensures forall r :: r in g.records ==> r in x.records
  {
    GroupsHold(x.eventOf, Latest(x.records));
    LatestIsNewest(x.records);
  }

  lemma ConcludedEarned(x: Inputs, eventId: string, judged: seq<Judged>, records: seq<SourceRecord>)
    requires judged != [] && Conclude(x, eventId, judged).severity != Routine
    requires forall k :: 0 <= k < |judged| ==> JudgedSoundly(x, judged[k]) && judged[k].record in records
    ensures var e := Conclude(x, eventId, judged);
            && e.assertion == Occurred && (e.status == IndependentMultiSource || e.status == CredibleSingleSource)
            && forall k :: 0 <= k < |e.support| ==> exists r :: r in records && r.recordId == e.support[k] && Vouched(x, r)
  {
    var e := Conclude(x, eventId, judged);
    var top :| 0 <= top < |judged| && judged[top].severity == MaxSeverity(judged);
    assert judged[top].status == judged[0].status && AllVerified(judged);
    forall k | 0 <= k < |e.support|
      ensures exists r :: r in records && r.recordId == e.support[k] && Vouched(x, r)
    {
      var r := judged[k].record;
      assert judged[k].verified && JudgedSoundly(x, judged[k]) && r in records;
    }
  }

  // ---- the validating loops ----

  method ChooseAssertion(x: Inputs, claims: Claims, record: SourceRecord) returns (res: Result<Chosen>)
    requires QuoteReference(record).Some?
    ensures res == Choose(x, claims, record)
  {
    var key, ref := KeyOf(record), QuoteReference(record).value;
    var proposed: Assertion, severity: Severity, verified := AssertionUnknown, Routine, false;
    var notes: set<Note> := {};
    var ruleMatch := if key in x.reviews then None else x.rules(record);
    if key in claims {
      proposed, ref := claims[key].assertion, claims[key].reference;
    }
    if key in x.reviews {
      var review := x.reviews[key];
      if review.contentHash != record.contentHash || !Quotes(review.reference, record) {
        return Err(InvalidInput);
      }
      proposed, ref, severity := review.assertion, review.reference, review.severity;
      verified := review.status == CredibleSingleSource || review.status == PublisherStatement;
    } else if ruleMatch.Some? {
      if !Quotes(ruleMatch.value.reference, record) {
        return Err(InvalidInput);
      }
      proposed, ref, severity := Occurred, ruleMatch.value.reference, ruleMatch.value.severity;
      verified := true;
      if ruleMatch.value.occurredAt.None? {
        notes := {TimeUnknown};
      }
    }
    var occurred := if ruleMatch.Some? then ruleMatch.value.occurredAt else record.occurredAt;
    res := Ok(Chosen(ref, proposed, severity, verified, occurred, notes));
  }

  method Downgrade(x: Inputs, record: SourceRecord, c: Chosen) returns (judged: Judged)
    ensures judged == Settle(x, record, c)
  {
    var severity, verified, notes := c.severity, c.vouched, c.notes;
    var status := GuardedStatus(record, c.proposed, x.now, x.cues);
    if status != c.proposed {
      verified := false;
      notes := notes + {Qualified};
    }
    if Stale(c.occurred, record.publishedAt, x.now, x.policy.maxAgeHours) {
      severity := Routine;
      notes := notes + {Old};
    }
    if !verified {
      severity := Routine;
      notes := notes + {NotVerified};
    }
    if status != Occurred {
      severity := Routine;
    }
    judged := Judged(record, c.reference, status, severity, verified, notes);
    assert notes == Settle(x, record, c).notes;
  }

  /** The body of the loop over one event's records. */
  method JudgeRecord(x: Inputs, claims: Claims, record: SourceRecord) returns (res: Result<Option<Judged>>)
    ensures res == Judge(x, claims, record)
  {
    if QuoteReference(record).None? {
      return Ok(None);
    }
    var chosen := ChooseAssertion(x, claims, record);
    if chosen.Err? {
      return Err(chosen.code);
    }
    var judged := Downgrade(x, record, chosen.value);
    res := Ok(Some(judged));
  }

  method GroupRecords(eventOf: Family -> string, latest: seq<SourceRecord>) returns (groups: seq<Group>)
    ensures groups == Groups(eventOf, latest)
  {
    groups := [];
    for n := 0 to |latest|
      invariant groups == Groups(eventOf, latest[..n])
    {
      assert latest[..n + 1][..n] == latest[..n];
      var id := eventOf(FamilyOf(latest[n]));
      var i := GroupPlace(groups, id);
      if i == |groups| {
        groups := groups + [Group(id, [latest[n]])];
      } else {
        groups := groups[i := Group(id, groups[i].records + [latest[n]])];
      }
    }
    assert latest[..|latest|] == latest;
  }

  /** `_validate`. */
  method Validate(x: Inputs, claims: Claims) returns (res: Result<seq<Event>>)
    ensures res == Construct(x, claims)
  {
    var every := (r: SourceRecord) => true;
    var latest := LatestRevisions(x.records, every);
    FilterAll(every, x.records);
    var groups := GroupRecords(x.eventOf, latest);
    var result: seq<Event> := [];
    for n := 0 to |groups|
      invariant ConstructGroups(x, claims, groups[..n]) == Ok(result)
    {
      var judged := JudgeGroup(x, claims, groups[n].records);
      NextGroup(x, claims, groups, n, result);
      if judged.Err? {
        ErrorStays(x, claims, groups, n + 1);
        return Err(judged.code);
      }
      if judged.value != [] {
        var event := Conclude(x, groups[n].eventId, judged.value);
        if !ValidEvent(event, x.fold) {
          ErrorStays(x, claims, groups, n + 1);
          return Err(InvalidOutput);
        }
        result := result + [event];
      }
    }
    assert groups[..|groups|] == groups;
    res := Ok(result);
  }

  lemma NextGroup(x: Inputs, claims: Claims, groups: seq<Group>, n: nat, result: seq<Event>)
    requires n < |groups| && ConstructGroups(x, claims, groups[..n]) == Ok(result)
    ensures var judged := JudgeAll(x, claims, groups[n].records);
            ConstructGroups(x, claims, groups[..n + 1]) ==
              if judged.Err? then Err(judged.code)
              else if judged.value == [] then Ok(result)
              else Constructed(x, result, Conclude(x, groups[n].eventId, judged.value))
  {
    assert groups[..n + 1][..n] == groups[..n];
  }

  lemma {:induction false} ErrorStays(x: Inputs, claims: Claims, groups: seq<Group>, n: nat)
    requires n <= |groups| && ConstructGroups(x, claims, groups[..n]).Err?
    ensures ConstructGroups(x, claims, groups) == ConstructGroups(x, claims, groups[..n])
    decreases |groups|
  {
    if n == |groups| {
      assert groups[..n] == groups;
    } else {
      assert groups[..|groups| - 1][..n] == groups[..n];
      ErrorStays(x, claims, groups[..|groups| - 1], n);
    }
  }

  method JudgeGroup(x: Inputs, claims: Claims, grouped: seq<SourceRecord>) returns (res: Result<seq<Judged>>)
    ensures res == JudgeAll(x, claims, grouped)
  {
    var judged: seq<Judged> := [];
    for n := 0 to |grouped|
      invariant JudgeAll(x, claims, grouped[..n]) == Ok(judged)
    {
      assert grouped[..n + 1][..n] == grouped[..n];
      var one := JudgeRecord(x, claims, grouped[n]);
      if one.Err? {
        JudgeErrorStays(x, claims, grouped, n + 1);
        return Err(one.code);
      }
      if one.value.Some? {
        judged := judged + [one.value.value];
      }
    }
    assert grouped[..|grouped|] == grouped;
    res := Ok(judged);
  }

  lemma {:induction false} JudgeErrorStays(x: Inputs, claims: Claims, grouped: seq<SourceRecord>, n: nat)
    requires n <= |grouped| && JudgeAll(x, claims, grouped[..n]).Err?
    ensures JudgeAll(x, claims, grouped) == JudgeAll(x, claims, grouped[..n])
    decreases |grouped|
  {
    if n == |grouped| {
      assert grouped[..n] == grouped;
    } else {
      assert grouped[..|grouped| - 1][..n] == grouped[..n];
      JudgeErrorStays(x, claims, grouped[..|grouped| - 1], n);
    }
  }
}
