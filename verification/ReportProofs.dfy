/** What every cutoff report promises: its validator, its citations, and that nothing known only later is in it. */
module ReportProofs {
  import opened Common
  import opened Contracts
  import opened Revisions
  import opened ReportDraft

  // ---- every citation is entered, and numbered as it is entered ----

  predicate Entered(evidence: seq<Ref>, refs: seq<Ref>) { forall i :: 0 <= i < |refs| ==> refs[i] in evidence }

  /** Each printed `evidence=#k` names the k-th entry. */
  predicate Numbered(evidence: seq<Ref>, l: Line) {
    && |l.numbers| == |l.refs|
    && forall i :: 0 <= i < |l.refs| ==> 1 <= l.numbers[i] <= |evidence| && evidence[l.numbers[i] - 1] == l.refs[i]
  }

  /** Every entry quotes one of the allowed records; every fact, metric and sentence cites entries. */
  predicate DraftOk(d: Draft, allowed: set<RecordKey>) {
    && Distinct(d.evidence)
    && (forall ref :: ref in d.evidence ==> RefKey(ref) in allowed)
    && (forall f :: f in d.facts ==> Entered(d.evidence, f.evidence))
    && (forall m :: m in d.metrics ==> Entered(d.evidence, m.evidence))
    && (forall l :: l in d.analysis ==> Numbered(d.evidence, l))
    && (forall l :: l in d.watch ==> Numbered(d.evidence, l))
  }

  predicate AllAllowed(refs: seq<Ref>, allowed: set<RecordKey>) { forall ref :: ref in refs ==> RefKey(ref) in allowed }

  /** A later draft keeps all that an earlier one says, with the same numbers. */
  predicate Extends(d: Draft, d': Draft) {
    d.facts <= d'.facts && d.metrics <= d'.metrics && d.analysis <= d'.analysis && d.watch <= d'.watch && d.evidence <= d'.evidence
  }

  /** One more stretch of entries leaves every number as it was. */
  lemma GrowEvidence(d: Draft, evidence: seq<Ref>, allowed: set<RecordKey>)
    requires DraftOk(d, allowed) && d.evidence <= evidence && Distinct(evidence) && AllAllowed(evidence, allowed)
    ensures DraftOk(d.(evidence := evidence), allowed)
  {
    forall ref | ref in d.evidence ensures ref in evidence {
      var k :| 0 <= k < |d.evidence| && d.evidence[k] == ref;
      assert evidence[k] == ref;
    }
  }

  lemma IncludeOk(evidence: seq<Ref>, ref: Ref, allowed: set<RecordKey>)
    requires Distinct(evidence) && AllAllowed(evidence, allowed) && RefKey(ref) in allowed
    ensures var r := Include(evidence, ref);
            Distinct(r) && AllAllowed(r, allowed) && evidence <= r && ref in r
  {
  }

  lemma {:induction false} IncludeAllOk(evidence: seq<Ref>, refs: seq<Ref>, allowed: set<RecordKey>)
    requires Distinct(evidence) && AllAllowed(evidence, allowed) && AllAllowed(refs, allowed)
    ensures var r := IncludeAll(evidence, refs);
            Distinct(r) && AllAllowed(r, allowed) && evidence <= r && Entered(r, refs)
    decreases |refs|
  {
    if refs != [] {
      assert refs[0] in refs;
      IncludeOk(evidence, refs[0], allowed);
      var next := Include(evidence, refs[0]);
      assert AllAllowed(refs[1..], allowed);
      IncludeAllOk(next, refs[1..], allowed);
      var r := IncludeAll(evidence, refs);
      var k :| 0 <= k < |next| && next[k] == refs[0];
      assert r[k] == refs[0];
      forall i | 0 <= i < |refs| ensures refs[i] in r { if i > 0 { assert refs[1..][i - 1] == refs[i]; } }
    }
  }

  /** A sentence's numbers name the entries of its references. */
  lemma NumbersOk(evidence: seq<Ref>, about: Label, refs: seq<Ref>)
    requires Entered(evidence, refs)
    ensures Numbered(evidence, Line(about, refs, Numbers(evidence, refs)))
  {
  }

  lemma SayOk(d: Draft, about: Label, refs: seq<Ref>, allowed: set<RecordKey>)
    requires DraftOk(d, allowed) && AllAllowed(refs, allowed)
    ensures var (d', l) := Say(d, about, refs);
            DraftOk(d', allowed) && Extends(d, d') && Numbered(d'.evidence, l)
  {
    IncludeAllOk(d.evidence, refs, allowed);
    GrowEvidence(d, IncludeAll(d.evidence, refs), allowed);
    NumbersOk(IncludeAll(d.evidence, refs), about, refs);
  }

  lemma AnalyseOk(d: Draft, about: Label, refs: seq<Ref>, allowed: set<RecordKey>)
    requires DraftOk(d, allowed) && AllAllowed(refs, allowed)
    ensures DraftOk(Analyse(d, about, refs), allowed) && Extends(d, Analyse(d, about, refs))
  {
    SayOk(d, about, refs, allowed);
  }

  lemma WatchOk(d: Draft, about: Label, refs: seq<Ref>, allowed: set<RecordKey>)
    requires DraftOk(d, allowed) && AllAllowed(refs, allowed)
    ensures DraftOk(Watch(d, about, refs), allowed) && Extends(d, Watch(d, about, refs))
  {
    SayOk(d, about, refs, allowed);
  }

  /** A metric that cites one new reference besides entered ones. */
  lemma MetricOk(d: Draft, m: Metric, ref: Ref, allowed: set<RecordKey>)
    requires DraftOk(d, allowed) && RefKey(ref) in allowed
    requires forall i :: 0 <= i < |m.evidence| ==> m.evidence[i] == ref || m.evidence[i] in d.evidence
    ensures var d' := d.(metrics := d.metrics + [m], evidence := Include(d.evidence, ref));
            DraftOk(d', allowed) && Extends(d, d')
  {
    IncludeOk(d.evidence, ref, allowed);
    GrowEvidence(d, Include(d.evidence, ref), allowed);
    forall r | r in d.evidence ensures r in Include(d.evidence, ref) {}
  }

  // ---- events ----

  lemma {:induction false} AddFactsOk(d: Draft, e: Event, refs: seq<Ref>, allowed: set<RecordKey>)
    requires DraftOk(d, allowed) && AllAllowed(refs, allowed)
    ensures DraftOk(AddFacts(d, e, refs), allowed) && Extends(d, AddFacts(d, e, refs))
    decreases |refs|
  {
    if refs != [] {
      assert refs[0] in refs;
      IncludeOk(d.evidence, refs[0], allowed);
      GrowEvidence(d, Include(d.evidence, refs[0]), allowed);
      var next := d.(facts := d.facts + [Fact(e.assertion, e.status, Cut(refs[0].excerpt), [refs[0]])], evidence := Include(d.evidence, refs[0]));
      assert DraftOk(next, allowed);
      assert AllAllowed(refs[1..], allowed);
      AddFactsOk(next, e, refs[1..], allowed);
    }
  }

  lemma AddImpactOk(d: Draft, impact: Label, watched: Label, refs: seq<Ref>, allowed: set<RecordKey>)
    requires DraftOk(d, allowed) && AllAllowed(refs, allowed)
    ensures DraftOk(AddImpact(d, impact, watched, refs), allowed) && Extends(d, AddImpact(d, impact, watched, refs))
  {
    if refs != [] {
      AnalyseOk(d, impact, refs, allowed);
      WatchOk(Analyse(d, impact, refs), watched, refs, allowed);
    }
  }

  lemma SortedRefsAllowed(evidence: seq<Ref>, available: map<RecordKey, SourceRecord>)
    requires AllValid(evidence, available)
    ensures AllAllowed(SortedRefs(evidence), available.Keys)
  {
    SameMembers(SortedRefs(evidence), Unique(evidence));
    forall ref | ref in SortedRefs(evidence) ensures RefKey(ref) in available {
      var i :| 0 <= i < |evidence| && evidence[i] == ref;
      assert ValidReference(evidence[i], available);
    }
  }

  lemma AddEventOk(x: Settings, cutoff: Time, available: map<RecordKey, SourceRecord>, d: Draft, e: Event)
    requires DraftOk(d, available.Keys)
    ensures DraftOk(AddEvent(x, cutoff, available, d, e), available.Keys)
    ensures Extends(d, AddEvent(x, cutoff, available, d, e))
  {
    if AllValid(e.evidence, available) {
      var refs, allowed := SortedRefs(e.evidence), available.Keys;
      SortedRefsAllowed(e.evidence, available);
      AddFactsOk(d, e, refs, allowed);
      var d1 := AddFacts(d, e, refs);
      if !Established(x, cutoff, e, refs, available) {
        WatchOk(d1, ToVerify(e.eventId, e.revision), refs, allowed);
      } else {
        var supply := Filter((ref: Ref) => x.supply(ref.excerpt), refs);
        var transport := Filter((ref: Ref) => x.transport(ref.excerpt), refs);
        AddImpactsOk(d, d1, e, refs, supply, transport, allowed);
      }
    }
  }

  lemma AddImpactsOk(before: Draft, d: Draft, e: Event, refs: seq<Ref>, supply: seq<Ref>, transport: seq<Ref>, allowed: set<RecordKey>)
    requires DraftOk(d, allowed) && Extends(before, d)
    requires AllAllowed(refs, allowed) && AllAllowed(supply, allowed) && AllAllowed(transport, allowed)
    ensures var d2 := AddImpact(d, SupplyImpact(e.eventId, e.revision), WatchSupply(e.eventId, e.revision), supply);
            var d3 := AddImpact(d2, TransportImpact(e.eventId, e.revision), WatchTransport(e.eventId, e.revision), transport);
            var d4 := Watch(d3, SinglePublisher(e.eventId, e.revision), refs);
            DraftOk(d3, allowed) && DraftOk(d4, allowed) && Extends(before, d3) && Extends(before, d4)
  {
    var d2 := AddImpact(d, SupplyImpact(e.eventId, e.revision), WatchSupply(e.eventId, e.revision), supply);
    var d3 := AddImpact(d2, TransportImpact(e.eventId, e.revision), WatchTransport(e.eventId, e.revision), transport);
    AddImpactOk(d, SupplyImpact(e.eventId, e.revision), WatchSupply(e.eventId, e.revision), supply, allowed);
    AddImpactOk(d2, TransportImpact(e.eventId, e.revision), WatchTransport(e.eventId, e.revision), transport, allowed);
    WatchOk(d3, SinglePublisher(e.eventId, e.revision), refs, allowed);
    ExtendsOn(before, d, d2);
    ExtendsOn(before, d2, d3);
    ExtendsOn(before, d3, Watch(d3, SinglePublisher(e.eventId, e.revision), refs));
  }

  lemma ExtendsOn(a: Draft, b: Draft, c: Draft)
    requires Extends(a, b) && Extends(b, c)
    ensures Extends(a, c)
  {
  }

  lemma {:induction false} AddEventsOk(x: Settings, cutoff: Time, available: map<RecordKey, SourceRecord>, d: Draft, events: seq<Event>)
    requires DraftOk(d, available.Keys)
    ensures DraftOk(AddEvents(x, cutoff, available, d, events), available.Keys)
    decreases |events|
  {
    if events != [] {
      AddEventOk(x, cutoff, available, d, events[0]);
      AddEventsOk(x, cutoff, available, AddEvent(x, cutoff, available, d, events[0]), events[1..]);
    }
  }

  // ---- observations and quotes ----

  predicate ObservationsAllowed(os: seq<Observation>, allowed: set<RecordKey>) {
    forall o :: o in os ==> RefKey(o.evidence) in allowed
  }

  lemma AddObservationOk(x: Settings, d: Draft, o: Observation, allowed: set<RecordKey>)
    requires DraftOk(d, allowed) && RefKey(o.evidence) in allowed
    ensures DraftOk(AddObservation(x, d, o), allowed)
  {
    if o.period.Some? {
      var metric := Metric(Background(o.observationId), Some(o.value), o.unit, o.asOf, [o.evidence], o.quality);
      MetricOk(d, metric, o.evidence, allowed);
      AnalyseOk(d.(metrics := d.metrics + [metric], evidence := Include(d.evidence, o.evidence)), BackgroundNote(o.observationId), [o.evidence], allowed);
    } else if ComparisonKey(x, o).None? {
      MetricOk(d, Metric(Uncomparable(o.observationId), Some(o.value), o.unit, o.asOf, [o.evidence], Incomplete), o.evidence, allowed);
    }
  }

  ghost predicate GroupsAllowed(groups: seq<Group>, allowed: set<RecordKey>) {
    forall g :: g in groups ==> ObservationsAllowed(g.items, allowed)
  }

  lemma AddToGroupOk(groups: seq<Group>, key: Key, o: Observation, allowed: set<RecordKey>)
    requires GroupsAllowed(groups, allowed) && RefKey(o.evidence) in allowed
    ensures GroupsAllowed(AddToGroup(groups, key, o), allowed)
  {
    var i, after := GroupPlace(groups, key), AddToGroup(groups, key, o);
    forall g | g in after ensures ObservationsAllowed(g.items, allowed) {
      if g !in groups {
        assert g == after[i];
        if i < |groups| { assert groups[i] in groups; }
      }
    }
  }

  lemma {:induction false} AddObservationsOk(x: Settings, d: Draft, groups: seq<Group>, os: seq<Observation>, allowed: set<RecordKey>)
    requires DraftOk(d, allowed) && GroupsAllowed(groups, allowed) && ObservationsAllowed(os, allowed)
    ensures var (d', groups') := AddObservations(x, d, groups, os);
            DraftOk(d', allowed) && GroupsAllowed(groups', allowed)
    decreases |os|
  {
    if os != [] {
      assert os[0] in os && ObservationsAllowed(os[1..], allowed);
      AddObservationOk(x, d, os[0], allowed);
      if Comparable(x, os[0]) { AddToGroupOk(groups, ComparisonKey(x, os[0]).value, os[0], allowed); }
      AddObservationsOk(
        x, AddObservation(x, d, os[0]),
        if Comparable(x, os[0]) then AddToGroup(groups, ComparisonKey(x, os[0]).value, os[0]) else groups, os[1..], allowed);
    }
  }

  lemma ChangeFrom(items: seq<Observation>, reportDate: int)
    requires items != [] && Change(items, reportDate).Some?
    ensures Change(items, reportDate).value.1 in items
  {
  }

  lemma AddQuotesOk(x: Settings, reportDate: int, d: Draft, g: Group, allowed: set<RecordKey>)
    requires DraftOk(d, allowed) && ObservationsAllowed(g.items, allowed)
    ensures DraftOk(AddQuotes(x, reportDate, d, g), allowed)
  {
    if g.items != [] {
      var items := SortBy(QuoteLess, g.items);
      SameMembers(items, g.items);
      var latest := items[|items| - 1];
      assert latest in items;
      var current, change := IsCurrent(latest, reportDate), Change(items, reportDate);
      ShowQuoteOk(d, g.key, latest, current, allowed);
      if change.Some? {
        ChangeFrom(items, reportDate);
        AddChangeOk(ShowQuote(d, g.key, latest, current), g.key, change.value.0, change.value.1, latest,
                    Reaches(x.thresholds, g.key, change.value.0), allowed);
      }
    }
  }

  lemma ShowQuoteOk(d: Draft, key: Key, latest: Observation, current: bool, allowed: set<RecordKey>)
    requires DraftOk(d, allowed) && RefKey(latest.evidence) in allowed
    ensures DraftOk(ShowQuote(d, key, latest, current), allowed)
    ensures DraftOk(NoChange(ShowQuote(d, key, latest, current), key, latest, current), allowed)
  {
    var shown := Metric(LatestQuote(key), Some(latest.value), latest.unit, latest.asOf, [latest.evidence],
                        if current then ValidQuote else Stale);
    MetricOk(d, shown, latest.evidence, allowed);
    IncludeOk(d.evidence, latest.evidence, allowed);
  }

  lemma AddChangeOk(
    d: Draft, key: Key, delta: real, previous: Observation, latest: Observation, reached: bool, allowed: set<RecordKey>)
    requires DraftOk(d, allowed) && RefKey(previous.evidence) in allowed && RefKey(latest.evidence) in allowed
    ensures DraftOk(AddChange(d, key, delta, previous, latest, reached), allowed)
  {
    var refs := [previous.evidence, latest.evidence];
    assert AllAllowed(refs, allowed);
    IncludeOk(d.evidence, previous.evidence, allowed);
    GrowEvidence(d, Include(d.evidence, previous.evidence), allowed);
    var d2 := d.(evidence := Include(d.evidence, previous.evidence));
    WatchOk(d2, ThresholdReached(key, delta), refs, allowed);
    var d3 := if reached then Watch(d2, ThresholdReached(key, delta), refs) else d2;
    AnalyseOk(d3, QuoteNote(key, delta), refs, allowed);
    IncludeAllOk(d3.evidence, refs, allowed);
    var d4 := Analyse(d3, QuoteNote(key, delta), refs);
    assert d4.evidence == IncludeAll(d3.evidence, refs) && Entered(d4.evidence, refs);
  }

  lemma {:induction false} AddGroupsOk(x: Settings, reportDate: int, d: Draft, groups: seq<Group>, allowed: set<RecordKey>)
    requires DraftOk(d, allowed) && GroupsAllowed(groups, allowed)
    ensures DraftOk(AddGroups(x, reportDate, d, groups), allowed)
    decreases |groups|
  {
    if groups != [] {
      assert groups[0] in groups && GroupsAllowed(groups[1..], allowed);
      AddQuotesOk(x, reportDate, d, groups[0], allowed);
      AddGroupsOk(x, reportDate, AddQuotes(x, reportDate, d, groups[0]), groups[1..], allowed);
    }
  }

  // ---- EIA series ----

  predicate RecordsAllowed(records: seq<SourceRecord>, allowed: set<RecordKey>) { forall r :: r in records ==> KeyOf(r) in allowed }

  ghost predicate SeriesAllowed(all: seq<Series>, allowed: set<RecordKey>) {
    forall s :: s in all ==> RecordsAllowed(s.records, allowed)
  }

  lemma {:induction false} SeriesOfOk(x: Settings, records: seq<SourceRecord>, allowed: set<RecordKey>)
    requires RecordsAllowed(records, allowed)
    ensures SeriesAllowed(SeriesOf(x, records), allowed)
    decreases |records|
  {
    if records != [] {
      var rest, r := records[..|records| - 1], records[|records| - 1];
      assert r in records && RecordsAllowed(rest, allowed);
      SeriesOfOk(x, rest, allowed);
      var before, after := SeriesOf(x, rest), SeriesOf(x, records);
      if x.point(r).Some? {
        var i := SeriesPlace(before, x.point(r).value.series);
        forall s | s in after ensures RecordsAllowed(s.records, allowed) {
          if s !in before {
            assert s == after[i];
            if i < |before| { assert before[i] in before; }
          }
        }
      }
    }
  }

  lemma ShownAllowed(x: Settings, records: seq<SourceRecord>, allowed: set<RecordKey>)
    requires RecordsAllowed(records, allowed) && ShownOf(x, records).Some?
    ensures RefKey(ShownOf(x, records).value.from) in allowed && RefKey(ShownOf(x, records).value.to) in allowed
  {
  }

  lemma EnterCloseOk(
    d: Draft, from: Ref, to: Ref, shown: Point, earlier: Point, later: Point, asOf: Time, allowed: set<RecordKey>)
    requires DraftOk(d, allowed) && RefKey(from) in allowed && RefKey(to) in allowed
    ensures DraftOk(EnterClose(d, from, to, shown, earlier, later, asOf), allowed)
  {
    var close := Metric(EiaClose(shown.product, later.period), Some(later.value), shown.unit, asOf, [to], ValidQuote);
    var moved := Metric(EiaChange(shown.product), Some(later.value - earlier.value), shown.unit, asOf, [from, to], ValidQuote);
    MetricOk(d, close, to, allowed);
    MetricOk(d.(metrics := d.metrics + [close], evidence := Include(d.evidence, to)), moved, from, allowed);
  }

  lemma SayCloseOk(d: Draft, product: string, change: real, refs: seq<Ref>, urgent: bool, allowed: set<RecordKey>)
    requires DraftOk(d, allowed) && AllAllowed(refs, allowed)
    ensures DraftOk(SayClose(d, product, change, refs, urgent), allowed)
  {
    AnalyseOk(d, EiaNote(product, change), refs, allowed);
    WatchOk(Analyse(d, EiaNote(product, change), refs), EiaThreshold(product, change), refs, allowed);
  }

  lemma AddShownOk(x: Settings, d: Draft, c: Shown, allowed: set<RecordKey>)
    requires DraftOk(d, allowed) && RefKey(c.from) in allowed && RefKey(c.to) in allowed
    ensures DraftOk(AddShown(x, d, c), allowed)
  {
    var change := c.later.value - c.earlier.value;
    EnterCloseOk(d, c.from, c.to, c.latest, c.earlier, c.later, c.asOf, allowed);
    SayCloseOk(EnterClose(d, c.from, c.to, c.latest, c.earlier, c.later, c.asOf), c.latest.product, change, [c.from, c.to],
               UrgentMove(x.alertPercent, change, c.earlier.value), allowed);
  }

  lemma AddSeriesOk(x: Settings, d: Draft, s: Series, allowed: set<RecordKey>)
    requires DraftOk(d, allowed) && RecordsAllowed(s.records, allowed)
    ensures DraftOk(AddSeries(x, d, s), allowed)
  {
    if ShownOf(x, s.records).Some? {
      ShownAllowed(x, s.records, allowed);
      AddShownOk(x, d, ShownOf(x, s.records).value, allowed);
    }
  }

  lemma {:induction false} AddAllSeriesOk(x: Settings, d: Draft, all: seq<Series>, allowed: set<RecordKey>)
    requires DraftOk(d, allowed) && SeriesAllowed(all, allowed)
    ensures DraftOk(AddAllSeries(x, d, all), allowed)
    decreases |all|
  {
    if all != [] {
      assert all[0] in all && SeriesAllowed(all[1..], allowed);
      AddSeriesOk(x, d, all[0], allowed);
      AddAllSeriesOk(x, AddSeries(x, d, all[0]), all[1..], allowed);
    }
  }

  // ---- the whole report ----

  lemma {:induction false} IndexKeys(records: seq<SourceRecord>)
    ensures forall k :: k in Index(records) <==> exists r :: r in records && KeyOf(r) == k
    ensures forall k :: k in Index(records) ==> Index(records)[k] in records && KeyOf(Index(records)[k]) == k
  {
    if records != [] {
      IndexKeys(records[..|records| - 1]);
      assert forall r :: r in records <==> r in records[..|records| - 1] || r == records[|records| - 1];
    }
  }

  lemma {:induction false} KeptFrom(os: seq<Observation>)
    requires Kept(os).Ok?
    ensures forall o :: o in Kept(os).value ==> o in os
    decreases |os|
  {
    if os != [] {
      KeptFrom(os[..|os| - 1]);
      assert forall o :: o in os <==> o in os[..|os| - 1] || o == os[|os| - 1];
    }
  }

  lemma ComposeOk(
    x: Settings, reportDate: int, cutoff: Time, available: seq<SourceRecord>, events: seq<Event>, kept: seq<Observation>)
    requires ObservationsAllowed(kept, Index(available).Keys)
    ensures DraftOk(Compose(x, reportDate, cutoff, available, events, kept), Index(available).Keys)
  {
    var allowed := Index(available).Keys;
    AddEventsOk(x, cutoff, Index(available), EmptyDraft, SortBy(ByEventId, events));
    var d1 := AddEvents(x, cutoff, Index(available), EmptyDraft, SortBy(ByEventId, events));
    AddObservationsOk(x, d1, [], kept, allowed);
    var (d2, groups) := AddObservations(x, d1, [], kept);
    SameMembers(SortBy(ByKey, groups), groups);
    AddGroupsOk(x, reportDate, d2, SortBy(ByKey, groups), allowed);
    IndexKeys(available);
    SeriesOfOk(x, available, allowed);
    SameMembers(SortBy(BySeries, SeriesOf(x, available)), SeriesOf(x, available));
    AddAllSeriesOk(x, AddGroups(x, reportDate, d2, SortBy(ByKey, groups)), SortBy(BySeries, SeriesOf(x, available)), allowed);
  }

  function UniqueIds(evidence: seq<Ref>): (r: seq<string>)
    ensures forall id :: id in r <==> exists ref :: ref in evidence && ref.recordId == id
    ensures Distinct(r)
  {
    if evidence == [] then []
    else
      var before, last := UniqueIds(evidence[..|evidence| - 1]), evidence[|evidence| - 1];
      assert forall ref :: ref in evidence <==> ref in evidence[..|evidence| - 1] || ref == last;
      if last.recordId in before then before else before + [last.recordId]
  }

  /** The report's list of evidence IDs: sorted, each once. */
  function EvidenceIds(d: Draft): seq<string> { SortBy(StringLess, UniqueIds(d.evidence)) }

  lemma IdsListed(d: Draft)
    ensures ToSet(EvidenceIds(d)) == set ref | ref in d.evidence :: ref.recordId
    ensures OrderedBy(StringLess, EvidenceIds(d)) && |EvidenceIds(d)| == |ToSet(EvidenceIds(d))|
  {
    var ids := EvidenceIds(d);
    StringLessWeak();
    SortOrdered(StringLess, UniqueIds(d.evidence));
    DistinctSize(UniqueIds(d.evidence));
    assert ToSet(ids) == ToSet(UniqueIds(d.evidence));
  }

  /** `Report.validate_fact_evidence`. */
  predicate ValidReport(d: Draft, evidenceIds: seq<string>) {
    && (set ref | ref in d.evidence :: ref.recordId) == ToSet(evidenceIds)
    && (forall f :: f in d.facts ==> Entered(d.evidence, f.evidence))
    && (forall m :: m in d.metrics ==> Entered(d.evidence, m.evidence))
  }

  /** The latest revision of its family among those discovered by the cutoff, and usable then. */
  predicate LatestKnown(r: SourceRecord, records: seq<SourceRecord>, cutoff: Time) {
    && r in records && r.discoveredAt <= cutoff && Usable(r, cutoff)
    && forall q :: q in records && q.discoveredAt <= cutoff && FamilyOf(q) == FamilyOf(r) ==> q.revision <= r.revision
  }

  lemma AvailableAreLatest(cutoff: Time, records: seq<SourceRecord>)
    ensures forall r :: r in Available(cutoff, records) ==> LatestKnown(r, records, cutoff)
  {
    var known := Filter(Known(cutoff), records);
    LatestIsNewest(known);
    forall r | r in Available(cutoff, records) ensures LatestKnown(r, records, cutoff) {
      forall q | q in records && q.discoveredAt <= cutoff && FamilyOf(q) == FamilyOf(r) ensures q.revision <= r.revision {
        assert q in known && Covers(Latest(known), q);
        NewestOfFamily(Latest(known), q, r);
      }
    }
  }

  lemma NewestOfFamily(latest: seq<SourceRecord>, q: SourceRecord, r: SourceRecord)
    requires OnePerFamily(latest) && Covers(latest, q) && r in latest && FamilyOf(q) == FamilyOf(r)
    ensures q.revision <= r.revision
  {
    var a :| a in latest && FamilyOf(a) == FamilyOf(q) && a.revision >= q.revision;
    var i :| 0 <= i < |latest| && latest[i] == a;
    var j :| 0 <= j < |latest| && latest[j] == r;
    assert i == j;
  }

  lemma BuildOk(x: Settings, q: Request, now: Time)
    requires Build(x, q, now).Ok?
    ensures DraftOk(Build(x, q, now).value, Index(Available(q.cutoffAt, q.records)).Keys)
  {
    var available := Available(q.cutoffAt, q.records);
    var accepted := Filter((o: Observation) => Accepted(x, q.cutoffAt, Index(available), o), q.observations);
    KeptFrom(accepted);
    ComposeOk(x, q.reportDate, q.cutoffAt, available, Current(Filter(Assessed(q.cutoffAt), q.events)).value, Kept(accepted).value);
  }

  /** Main result: every built report passes its validator, and every `evidence=#k` names the k-th entry. */
  lemma ReportValid(x: Settings, q: Request, now: Time)
    requires Build(x, q, now).Ok?
    ensures var d := Build(x, q, now).value;
            && ValidReport(d, EvidenceIds(d))
            && (forall l :: l in d.analysis ==> Numbered(d.evidence, l))
            && (forall l :: l in d.watch ==> Numbered(d.evidence, l))
  {
    BuildOk(x, q, now);
    IdsListed(Build(x, q, now).value);
  }

  /** Main result: every cited record is the latest revision of its family known at the cutoff, and usable then. */
  lemma CitationsAreLatest(x: Settings, q: Request, now: Time, ref: Ref)
    requires Build(x, q, now).Ok? && ref in Build(x, q, now).value.evidence
    ensures exists r :: KeyOf(r) == RefKey(ref) && LatestKnown(r, q.records, q.cutoffAt)
  {
    BuildOk(x, q, now);
    IndexKeys(Available(q.cutoffAt, q.records));
    AvailableAreLatest(q.cutoffAt, q.records);
  }

  // ---- late data ----

  /** Dated and published by the cutoff. */
  predicate InTime(o: Observation, cutoff: Time) { o.asOf <= cutoff && AtMost(o.publishedAt, cutoff) }

  lemma {:induction false} FilterTwice<T(!new)>(p: T -> bool, q: T -> bool, s: seq<T>)
    requires forall v :: p(v) ==> q(v)
    ensures Filter(p, Filter(q, s)) == Filter(p, s)
    decreases |s|
  {
    if s != [] {
      var rest, last := s[..|s| - 1], s[|s| - 1];
      FilterTwice(p, q, rest);
      if q(last) {
        assert Filter(q, s)[..|Filter(q, s)| - 1] == Filter(q, rest);
      }
    }
  }

  /** The two snapshots agree on what was known at the cutoff: records discovered, events assessed, and observations
      dated and published by then, each in the same order. */
  predicate SameAtCutoff(q: Request, late: Request) {
    && q.reportDate == late.reportDate && q.cutoffAt == late.cutoffAt
    && Filter(Known(q.cutoffAt), q.records) == Filter(Known(q.cutoffAt), late.records)
    && Filter(Assessed(q.cutoffAt), q.events) == Filter(Assessed(q.cutoffAt), late.events)
    && Filter((o: Observation) => InTime(o, q.cutoffAt), q.observations)
       == Filter((o: Observation) => InTime(o, q.cutoffAt), late.observations)
  }

  /** Main result: late data changes nothing. However a snapshot is extended by records discovered, events assessed or
      observations dated or published after the cutoff, if it stays within bounds and indexable, its report has the same
      evidence in the same order, facts, metrics, analysis and watch items, or is rejected alike. */
  lemma LateDataChangesNothing(x: Settings, q: Request, now: Time, late: Request, later: Time)
    requires SameAtCutoff(q, late) && q.cutoffAt <= now && q.cutoffAt <= later
    requires |q.records| <= 5000 && |q.events| <= 1000 && |q.observations| <= 5000 && Indexable(q.records)
    requires |late.records| <= 5000 && |late.events| <= 1000 && |late.observations| <= 5000 && Indexable(late.records)
    ensures Build(x, late, later) == Build(x, q, now)
  {
    var available := Available(q.cutoffAt, q.records);
    var accepted := (o: Observation) => Accepted(x, q.cutoffAt, Index(available), o);
    var inTime := (o: Observation) => InTime(o, q.cutoffAt);
    FilterTwice(accepted, inTime, q.observations);
    FilterTwice(accepted, inTime, late.observations);
    SameVisible(x, q, late, accepted);
  }

  lemma SameVisible(x: Settings, q: Request, late: Request, accepted: Observation -> bool)
    requires SameAtCutoff(q, late)
    requires forall o :: accepted(o) <==> Accepted(x, q.cutoffAt, Index(Available(q.cutoffAt, q.records)), o)
    requires Filter(accepted, q.observations) == Filter(accepted, late.observations)
    ensures Visible(x, q.reportDate, q.cutoffAt, Filter(Known(q.cutoffAt), q.records), Filter(Assessed(q.cutoffAt), q.events), q.observations)
      == Visible(x, q.reportDate, q.cutoffAt, Filter(Known(q.cutoffAt), late.records), Filter(Assessed(q.cutoffAt), late.events), late.observations)
  {
    var test := (o: Observation) => Accepted(x, q.cutoffAt, Index(Available(q.cutoffAt, q.records)), o);
    SameFilter(accepted, test, q.observations);
    SameFilter(accepted, test, late.observations);
  }

  lemma {:induction false} SameFilter<T(!new)>(p: T -> bool, q: T -> bool, s: seq<T>)
    requires forall v :: p(v) <==> q(v)
    ensures Filter(p, s) == Filter(q, s)
    decreases |s|
  {
    if s != [] { SameFilter(p, q, s[..|s| - 1]); }
  }

  // ---- adding late data ----

  /** `b` is `a` with items for which `keep` does not hold put in anywhere. */
  predicate Inserted<T(==)>(keep: T -> bool, a: seq<T>, b: seq<T>)
    decreases |b|
  {
    if b == [] then a == []
    else
      var rest, last := b[..|b| - 1], b[|b| - 1];
      || (a != [] && a[|a| - 1] == last && Inserted(keep, a[..|a| - 1], rest))
      || (!keep(last) && Inserted(keep, a, rest))
  }

  lemma {:induction false} InsertedFiltered<T(!new)>(keep: T -> bool, a: seq<T>, b: seq<T>)
    requires Inserted(keep, a, b)
    ensures Filter(keep, a) == Filter(keep, b)
    decreases |b|
  {
    if b != [] {
      var rest, last := b[..|b| - 1], b[|b| - 1];
      if a != [] && a[|a| - 1] == last && Inserted(keep, a[..|a| - 1], rest) {
        InsertedFiltered(keep, a[..|a| - 1], rest);
      } else {
        InsertedFiltered(keep, a, rest);
      }
    }
  }

  /** Nothing but late items was added: records discovered, events assessed and observations dated or published after
      the cutoff, anywhere among the others. */
  predicate OnlyLateAdded(q: Request, late: Request) {
    && q.reportDate == late.reportDate && q.cutoffAt == late.cutoffAt
    && Inserted(Known(q.cutoffAt), q.records, late.records)
    && Inserted(Assessed(q.cutoffAt), q.events, late.events)
    && Inserted((o: Observation) => InTime(o, q.cutoffAt), q.observations, late.observations)
  }

  /** The reading of `LateDataChangesNothing` that names what is added. */
  lemma LateAdditionsChangeNothing(x: Settings, q: Request, now: Time, late: Request, later: Time)
    requires OnlyLateAdded(q, late) && q.cutoffAt <= now && q.cutoffAt <= later
    requires |late.records| <= 5000 && |late.events| <= 1000 && |late.observations| <= 5000 && Indexable(late.records)
    ensures Build(x, late, later) == Build(x, q, now)
  {
    InsertedFiltered(Known(q.cutoffAt), q.records, late.records);
    InsertedFiltered(Assessed(q.cutoffAt), q.events, late.events);
    InsertedFiltered((o: Observation) => InTime(o, q.cutoffAt), q.observations, late.observations);
    InsertedWithin(Known(q.cutoffAt), q.records, late.records);
    InsertedWithin(Assessed(q.cutoffAt), q.events, late.events);
    InsertedWithin((o: Observation) => InTime(o, q.cutoffAt), q.observations, late.observations);
    LateDataChangesNothing(x, q, now, late, later);
  }

  lemma {:induction false} InsertedWithin<T>(keep: T -> bool, a: seq<T>, b: seq<T>)
    requires Inserted(keep, a, b)
    ensures |a| <= |b| && forall v :: v in a ==> v in b
    decreases |b|
  {
    if b != [] {
      var rest, last := b[..|b| - 1], b[|b| - 1];
      if a != [] && a[|a| - 1] == last && Inserted(keep, a[..|a| - 1], rest) {
        InsertedWithin(keep, a[..|a| - 1], rest);
        assert forall v :: v in a ==> v in a[..|a| - 1] || v == last;
      } else {
        InsertedWithin(keep, a, rest);
      }
    }
  }
}
