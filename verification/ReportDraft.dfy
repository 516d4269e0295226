module ReportDraft {
  /** What a cutoff report says (`reporting/service.py`): the accumulating build as functions of the snapshot.

  The wording of sentences is left to `Label`; what matters of a sentence is what it is about and which evidence
  numbers it cites. Market values are exact rationals. The wording cues of `guarded_status`, the disruption wording of
  an excerpt, the observation check, the reading of an EIA excerpt and the quote-basis words are parameters. */

  import opened Common
  import opened Contracts
  import opened Revisions
  import Assessment

  datatype Event = Event(
    eventId: string, revision: nat, assertion: Assertion, status: EvidenceStatus, evidence: seq<Ref>, assessedAt: Time, rest: string)

  datatype Quality = ValidQuote | Stale | Incomplete | Invalid

  /** The nine comparison fields of a quote, in order. */
  type Key = seq<string>

  datatype Observation = Observation(
    observationId: string, revision: nat, basis: seq<Option<string>>, unit: string, value: real, asOf: Time,
    period: Option<(int, int)>, publishedAt: Option<Time>, evidence: Ref, quality: Quality, rest: string)

  datatype Point = Point(series: string, period: string, value: real, product: string, unit: string)

  datatype Settings = Settings(
    cues: Assessment.Cues, supply: string -> bool, transport: string -> bool, supported: (Observation, SourceRecord) -> bool,
    known: string -> bool, point: SourceRecord -> Option<Point>, thresholds: map<Key, real>, alertPercent: Option<real>)

  datatype Request = Request(
    reportDate: int, cutoffAt: Time, records: seq<SourceRecord>, events: seq<Event>, observations: seq<Observation>)

  // ---- what the report is made of ----

  datatype Fact = Fact(assertion: Assertion, status: EvidenceStatus, excerpt: string, evidence: seq<Ref>)

  datatype MetricName =
    | Background(id: string) | Uncomparable(id: string) | LatestQuote(key: Key) | QuoteChange(key: Key)
    | EiaClose(product: string, period: string) | EiaChange(product: string)

  datatype Metric = Metric(name: MetricName, value: Option<real>, unit: string, asOf: Time, evidence: seq<Ref>, quality: Quality)

  datatype Label =
    | ToVerify(eventId: string, revision: nat) | SupplyImpact(eventId: string, revision: nat)
    | TransportImpact(eventId: string, revision: nat) | WatchSupply(eventId: string, revision: nat)
    | WatchTransport(eventId: string, revision: nat) | SinglePublisher(eventId: string, revision: nat)
    | BackgroundNote(id: string) | QuoteNote(key: Key, delta: real) | ThresholdReached(key: Key, delta: real)
    | EiaNote(product: string, change: real) | EiaThreshold(product: string, change: real)

  /** A sentence: what it is about, the references it cites, and the `evidence=#k` numbers it prints for them. */
  datatype Line = Line(about: Label, refs: seq<Ref>, numbers: seq<nat>)

  datatype Draft = Draft(facts: seq<Fact>, metrics: seq<Metric>, analysis: seq<Line>, watch: set<Line>, evidence: seq<Ref>)

  const EmptyDraft := Draft([], [], [], {}, [])

  function EntryPlace(evidence: seq<Ref>, ref: Ref): (i: nat)
    ensures i <= |evidence| && (i < |evidence| ==> evidence[i] == ref) && (i == |evidence| ==> ref !in evidence)
  {
    if evidence == [] then 0 else if evidence[0] == ref then 0 else EntryPlace(evidence[1..], ref) + 1
  }

  /** `include`: the entry is numbered once and keeps its number. */
  function Include(evidence: seq<Ref>, ref: Ref): seq<Ref> { if ref in evidence then evidence else evidence + [ref] }

  function NumberOf(evidence: seq<Ref>, ref: Ref): nat { EntryPlace(evidence, ref) + 1 }

  function IncludeAll(evidence: seq<Ref>, refs: seq<Ref>): seq<Ref>
    decreases |refs|
  {
    if refs == [] then evidence else IncludeAll(Include(evidence, refs[0]), refs[1..])
  }

  function Numbers(evidence: seq<Ref>, refs: seq<Ref>): (r: seq<nat>)
    ensures |r| == |refs| && forall i :: 0 <= i < |r| ==> r[i] == NumberOf(evidence, refs[i])
  {
    seq(|refs|, i requires 0 <= i < |refs| => NumberOf(evidence, refs[i]))
  }

  /** A sentence that includes its references first. */
  function Say(d: Draft, about: Label, refs: seq<Ref>): (Draft, Line) {
    var evidence := IncludeAll(d.evidence, refs);
    (d.(evidence := evidence), Line(about, refs, Numbers(evidence, refs)))
  }

  function Analyse(d: Draft, about: Label, refs: seq<Ref>): Draft {
    var (d', line) := Say(d, about, refs);
    d'.(analysis := d.analysis + [line])
  }

  function Watch(d: Draft, about: Label, refs: seq<Ref>): Draft {
    var (d', line) := Say(d, about, refs);
    d'.(watch := d.watch + {line})
  }

  // ---- known records ----

  predicate AtMost(t: Option<Time>, cutoff: Time) { t.Some? ==> t.value <= cutoff }

  predicate Usable(r: SourceRecord, cutoff: Time) {
    r.quality == ValidTime && AtMost(r.publishedAt, cutoff) && AtMost(r.availableAt, cutoff) && AtMost(r.occurredAt, cutoff)
  }

  function Known(cutoff: Time): SourceRecord -> bool { (r: SourceRecord) => r.discoveredAt <= cutoff }

  /** The usable ones among the latest revisions known at the cutoff, in order. */
  function Available(cutoff: Time, records: seq<SourceRecord>): seq<SourceRecord> {
    Filter((r: SourceRecord) => Usable(r, cutoff), Latest(Filter(Known(cutoff), records)))
  }

  // ---- events ----

  function EventPlace(events: seq<Event>, id: string): (i: nat)
    ensures i <= |events| && (i < |events| ==> events[i].eventId == id)
  {
    if events == [] then 0 else if events[0].eventId == id then 0 else EventPlace(events[1..], id) + 1
  }

  /** The highest revision of every event; one revision with two contents is an error. */
  function Current(events: seq<Event>): Result<seq<Event>> {
    if events == [] then Ok([])
    else
      var before := Current(events[..|events| - 1]);
      if before.Err? then before
      else
        var e := events[|events| - 1];
        var i := EventPlace(before.value, e.eventId);
        if i == |before.value| then Ok(before.value + [e])
        else if before.value[i].revision == e.revision && before.value[i] != e then Err(InvalidInput)
        else if e.revision > before.value[i].revision then Ok(before.value[i := e])
        else before
  }

  function FieldRank(f: Field): nat { if f == ContentExcerpt then 0 else 1 }

  /** The order of the evidence list; valid references quote the excerpt or the title. */
  predicate RefLess(a: Ref, b: Ref) {
    StringLess(a.recordId, b.recordId)
    || (a.recordId == b.recordId
        && (a.revision < b.revision
            || (a.revision == b.revision
                && (FieldRank(a.field) < FieldRank(b.field)
                    || (FieldRank(a.field) == FieldRank(b.field) && StringLess(a.excerpt, b.excerpt))))))
  }

  function Unique(refs: seq<Ref>): (r: seq<Ref>)
    ensures forall x :: x in r <==> x in refs
    ensures Distinct(r)
  {
    if refs == [] then []
    else
      var before, last := Unique(refs[..|refs| - 1]), refs[|refs| - 1];
      assert forall x :: x in refs <==> x in refs[..|refs| - 1] || x == last;
      if last in before then before else before + [last]
  }

  function SortedRefs(evidence: seq<Ref>): seq<Ref> { SortBy(RefLess, Unique(evidence)) }

  predicate AllValid(refs: seq<Ref>, available: map<RecordKey, SourceRecord>) {
    forall i :: 0 <= i < |refs| ==> ValidReference(refs[i], available)
  }

  predicate Established(x: Settings, cutoff: Time, e: Event, refs: seq<Ref>, available: map<RecordKey, SourceRecord>) {
    && Reliable(e.status) && e.assertion == Occurred
    && forall i :: 0 <= i < |refs| ==>
         RefKey(refs[i]) in available && Assessment.GuardedStatus(available[RefKey(refs[i])], Occurred, cutoff, x.cues) == Occurred
  }

  function Cut(s: string): string { if |s| <= 1800 then s else s[..1800] }

  function AddFacts(d: Draft, e: Event, refs: seq<Ref>): Draft
    decreases |refs|
  {
    if refs == [] then d
    else
      AddFacts(
        d.(facts := d.facts + [Fact(e.assertion, e.status, Cut(refs[0].excerpt), [refs[0]])], evidence := Include(d.evidence, refs[0])),
        e, refs[1..])
  }

  function AddImpact(d: Draft, impact: Label, watched: Label, refs: seq<Ref>): Draft {
    if refs == [] then d else Watch(Analyse(d, impact, refs), watched, refs)
  }

  function AddEvent(x: Settings, cutoff: Time, available: map<RecordKey, SourceRecord>, d: Draft, e: Event): Draft {
    if !AllValid(e.evidence, available) then d
    else
      var refs := SortedRefs(e.evidence);
      var d1 := AddFacts(d, e, refs);
      if !Established(x, cutoff, e, refs, available) then Watch(d1, ToVerify(e.eventId, e.revision), refs)
      else
        var supply := Filter((ref: Ref) => x.supply(ref.excerpt), refs);
        var transport := Filter((ref: Ref) => x.transport(ref.excerpt), refs);
        var d2 := AddImpact(d1, SupplyImpact(e.eventId, e.revision), WatchSupply(e.eventId, e.revision), supply);
        var d3 := AddImpact(d2, TransportImpact(e.eventId, e.revision), WatchTransport(e.eventId, e.revision), transport);
        if e.status != IndependentMultiSource then Watch(d3, SinglePublisher(e.eventId, e.revision), refs) else d3
  }

  function AddEvents(x: Settings, cutoff: Time, available: map<RecordKey, SourceRecord>, d: Draft, events: seq<Event>): Draft
    decreases |events|
  {
    if events == [] then d else AddEvents(x, cutoff, available, AddEvent(x, cutoff, available, d, events[0]), events[1..])
  }

  // ---- observations ----

  /** Taken into the report at all. */
  predicate Accepted(x: Settings, cutoff: Time, available: map<RecordKey, SourceRecord>, o: Observation) {
    && RefKey(o.evidence) in available && x.supported(o, available[RefKey(o.evidence)])
    && o.asOf <= cutoff && AtMost(o.publishedAt, cutoff) && o.quality != Invalid
  }

  function ObservationPlace(os: seq<Observation>, id: string): (i: nat)
    ensures i <= |os| && (i < |os| ==> os[i].observationId == id)
    ensures forall k :: 0 <= k < i ==> os[k].observationId != id
  {
    if os == [] then 0 else if os[0].observationId == id then 0 else ObservationPlace(os[1..], id) + 1
  }

  function Kept(os: seq<Observation>): Result<seq<Observation>> {
    if os == [] then Ok([])
    else
      var before := Kept(os[..|os| - 1]);
      if before.Err? then before
      else
        var o := os[|os| - 1];
        var i := ObservationPlace(before.value, o.observationId);
        if i == |before.value| then Ok(before.value + [o])
        else if before.value[i].revision == o.revision && before.value[i] != o then Err(InvalidInput)
        else if before.value[i].revision < o.revision then Ok(before.value[i := o])
        else before
  }

  /** `comparison_key`: all nine fields known, no statistical period, a usable value. */
  function ComparisonKey(x: Settings, o: Observation): Option<Key> {
    if |o.basis| != 9 || (exists i :: 0 <= i < |o.basis| && (o.basis[i].None? || !x.known(o.basis[i].value))) then None
    else if o.period.Some? || o.quality == Invalid || o.quality == Incomplete then None
    else Some(seq(|o.basis|, i requires 0 <= i < |o.basis| => o.basis[i].value))
  }

  datatype Group = Group(key: Key, items: seq<Observation>)

  function GroupPlace(groups: seq<Group>, key: Key): (i: nat)
    ensures i <= |groups| && (i < |groups| ==> groups[i].key == key)
  {
    if groups == [] then 0 else if groups[0].key == key then 0 else GroupPlace(groups[1..], key) + 1
  }

  function AddToGroup(groups: seq<Group>, key: Key, o: Observation): seq<Group> {
    var i := GroupPlace(groups, key);
    if i == |groups| then groups + [Group(key, [o])] else groups[i := Group(key, groups[i].items + [o])]
  }

  /** A statistical value or an uncomparable quote is shown as it is; comparable quotes are grouped. */
  function AddObservation(x: Settings, d: Draft, o: Observation): Draft {
    if o.period.Some? then
      var metric := Metric(Background(o.observationId), Some(o.value), o.unit, o.asOf, [o.evidence], o.quality);
      Analyse(d.(metrics := d.metrics + [metric], evidence := Include(d.evidence, o.evidence)), BackgroundNote(o.observationId), [o.evidence])
    else if ComparisonKey(x, o).None? then
      var metric := Metric(Uncomparable(o.observationId), Some(o.value), o.unit, o.asOf, [o.evidence], Incomplete);
      d.(metrics := d.metrics + [metric], evidence := Include(d.evidence, o.evidence))
    else d
  }

  predicate Comparable(x: Settings, o: Observation) { o.period.None? && ComparisonKey(x, o).Some? }

  function AddObservations(x: Settings, d: Draft, groups: seq<Group>, os: seq<Observation>): (Draft, seq<Group>)
    decreases |os|
  {
    if os == [] then (d, groups)
    else
      AddObservations(
        x, AddObservation(x, d, os[0]),
        if Comparable(x, os[0]) then AddToGroup(groups, ComparisonKey(x, os[0]).value, os[0]) else groups, os[1..])
  }

  // ---- quote changes ----

  predicate QuoteLess(a: Observation, b: Observation) {
    a.asOf < b.asOf || (a.asOf == b.asOf && StringLess(a.observationId, b.observationId))
  }

  /** The last of the given quotes that is strictly earlier than `t`. */
  function NearestEarlier(items: seq<Observation>, t: Time): (r: Option<Observation>)
    ensures r.Some? ==> r.value in items && r.value.asOf < t
  {
    if items == [] then None
    else if items[|items| - 1].asOf < t then Some(items[|items| - 1])
    else NearestEarlier(items[..|items| - 1], t)
  }

  predicate Disputed(items: seq<Observation>, v: Observation) {
    exists i :: 0 <= i < |items| && items[i].asOf == v.asOf && items[i].value != v.value
  }

  function LocalDay(t: Time): int { (t + 28800) / 86400 }

  predicate IsCurrent(v: Observation, reportDate: int) { LocalDay(v.asOf) == reportDate && v.quality == ValidQuote }

  /** The price change of one like-for-like group (sorted), if there is one to report. */
  function Change(items: seq<Observation>, reportDate: int): Option<(real, Observation)>
    requires items != []
  {
    var latest := items[|items| - 1];
    var previous := NearestEarlier(items[..|items| - 1], latest.asOf);
    var tied := Disputed(items, latest) || (previous.Some? && Disputed(items, previous.value));
    if IsCurrent(latest, reportDate) && !tied && previous.Some? then Some((latest.value - previous.value.value, previous.value)) else None
  }

  function Abs(v: real): real { if v < 0.0 then -v else v }

  function ShowQuote(d: Draft, key: Key, latest: Observation, current: bool): Draft {
    var shown := Metric(LatestQuote(key), Some(latest.value), latest.unit, latest.asOf, [latest.evidence],
                        if current then ValidQuote else Stale);
    d.(metrics := d.metrics + [shown], evidence := Include(d.evidence, latest.evidence))
  }

  function NoChange(d: Draft, key: Key, latest: Observation, current: bool): Draft {
    var unknown := Metric(QuoteChange(key), None, latest.unit, latest.asOf, [latest.evidence], if current then Incomplete else Stale);
    d.(metrics := d.metrics + [unknown])
  }

  predicate Reaches(thresholds: map<Key, real>, key: Key, delta: real) { key in thresholds && Abs(delta) >= thresholds[key] }

  function AddChange(d: Draft, key: Key, delta: real, previous: Observation, latest: Observation, reached: bool): Draft {
    var refs := [previous.evidence, latest.evidence];
    var d2 := d.(evidence := Include(d.evidence, previous.evidence));
    var d3 := if reached then Watch(d2, ThresholdReached(key, delta), refs) else d2;
    var d4 := Analyse(d3, QuoteNote(key, delta), refs);
    d4.(metrics := d4.metrics + [Metric(QuoteChange(key), Some(delta), latest.unit, latest.asOf, refs, ValidQuote)])
  }

  function AddQuotes(x: Settings, reportDate: int, d: Draft, g: Group): Draft {
    if g.items == [] then d
    else
      var items := SortBy(QuoteLess, g.items);
      SameMembers(items, g.items);
      var latest := items[|items| - 1];
      var current := IsCurrent(latest, reportDate);
      var d1 := ShowQuote(d, g.key, latest, current);
      var change := Change(items, reportDate);
      if change.None? then NoChange(d1, g.key, latest, current)
      else AddChange(d1, g.key, change.value.0, change.value.1, latest, Reaches(x.thresholds, g.key, change.value.0))
  }

  lemma QuotesAre(
    x: Settings, reportDate: int, d: Draft, g: Group, items: seq<Observation>, latest: Observation, current: bool,
    change: Option<(real, Observation)>)
    requires g.items != [] && items == SortBy(QuoteLess, g.items) && |items| == |g.items| && latest == items[|items| - 1]
    requires current == IsCurrent(latest, reportDate) && change == Change(items, reportDate)
    ensures AddQuotes(x, reportDate, d, g)
      == if change.None? then NoChange(ShowQuote(d, g.key, latest, current), g.key, latest, current)
         else AddChange(ShowQuote(d, g.key, latest, current), g.key, change.value.0, change.value.1, latest,
                        Reaches(x.thresholds, g.key, change.value.0))
  {
  }

  function AddGroups(x: Settings, reportDate: int, d: Draft, groups: seq<Group>): Draft
    decreases |groups|
  {
    if groups == [] then d else AddGroups(x, reportDate, AddQuotes(x, reportDate, d, groups[0]), groups[1..])
  }

  /** The order of key tuples. */
  predicate KeyLess(a: Key, b: Key) {
    b != [] && (a == [] || StringLess(a[0], b[0]) || (a[0] == b[0] && KeyLess(a[1..], b[1..])))
  }

  // ---- EIA series ----

  datatype Series = Series(id: string, records: seq<SourceRecord>)

  function SeriesPlace(all: seq<Series>, id: string): (i: nat)
    ensures i <= |all| && (i < |all| ==> all[i].id == id)
  {
    if all == [] then 0 else if all[0].id == id then 0 else SeriesPlace(all[1..], id) + 1
  }

  function SeriesOf(x: Settings, records: seq<SourceRecord>): seq<Series> {
    if records == [] then []
    else
      var before, r := SeriesOf(x, records[..|records| - 1]), records[|records| - 1];
      if x.point(r).None? then before
      else
        var id := x.point(r).value.series;
        var i := SeriesPlace(before, id);
        if i == |before| then before + [Series(id, [r])] else before[i := Series(id, before[i].records + [r])]
  }

  predicate Dated(x: Settings, r: SourceRecord) { r.publishedAt.Some? && r.quality == ValidTime && x.point(r).Some? }

  function PublishedTime(r: SourceRecord): Time { if r.publishedAt.Some? then r.publishedAt.value else 0 }

  function Period(x: Settings, r: SourceRecord): string { if x.point(r).Some? then x.point(r).value.period else "" }

  /** The order of closes, which are all dated. */
  predicate CloseLess(x: Settings, a: SourceRecord, b: SourceRecord) {
    PublishedTime(a) < PublishedTime(b) || (PublishedTime(a) == PublishedTime(b) && StringLess(Period(x, a), Period(x, b)))
  }

  function ByClose(x: Settings): (SourceRecord, SourceRecord) -> bool { (a: SourceRecord, b: SourceRecord) => CloseLess(x, a, b) }

  function ClosesOf(x: Settings, records: seq<SourceRecord>): seq<SourceRecord> { Filter((r: SourceRecord) => Dated(x, r), records) }

  /** The last two dated closes, if the earlier is not zero. */
  function LastTwo(x: Settings, records: seq<SourceRecord>): Option<(SourceRecord, SourceRecord)> {
    var closes := SortBy(ByClose(x), ClosesOf(x, records));
    if |closes| < 2 then None
    else
      var previous, latest := closes[|closes| - 2], closes[|closes| - 1];
      if x.point(previous).None? || x.point(previous).value.value == 0.0 then None else Some((previous, latest))
  }

  /** A lookup by record ID: the last record of the series with that ID. */
  function ById(records: seq<SourceRecord>, id: string): (r: Option<SourceRecord>)
    ensures r.Some? ==> r.value in records && r.value.recordId == id
  {
    if records == [] then None
    else if records[|records| - 1].recordId == id then Some(records[|records| - 1])
    else ById(records[..|records| - 1], id)
  }

  function EnterClose(d: Draft, from: Ref, to: Ref, shown: Point, earlier: Point, later: Point, asOf: Time): Draft {
    var close := Metric(EiaClose(shown.product, later.period), Some(later.value), shown.unit, asOf, [to], ValidQuote);
    var moved := Metric(EiaChange(shown.product), Some(later.value - earlier.value), shown.unit, asOf, [from, to], ValidQuote);
    var d1 := d.(metrics := d.metrics + [close], evidence := Include(d.evidence, to));
    d1.(metrics := d1.metrics + [moved], evidence := Include(d1.evidence, from))
  }

  function SayClose(d: Draft, product: string, change: real, refs: seq<Ref>, urgent: bool): Draft {
    var d1 := Analyse(d, EiaNote(product, change), refs);
    if urgent then Watch(d1, EiaThreshold(product, change), refs) else d1
  }

  /** The move is at least the configured percentage of the earlier close. */
  predicate UrgentMove(percent: Option<real>, change: real, earlier: real) {
    percent.Some? && Abs(change) * 100.0 >= percent.value * Abs(earlier)
  }

  /** The two records a series' change is shown for, with what they quote. */
  datatype Shown = Shown(from: Ref, to: Ref, latest: Point, earlier: Point, later: Point, asOf: Time)

  function ShownOf(x: Settings, records: seq<SourceRecord>): Option<Shown> {
    var pair := LastTwo(x, records);
    if pair.None? then None
    else
      var latest, previous := ById(records, pair.value.1.recordId), ById(records, pair.value.0.recordId);
      if latest.None? || previous.None? || x.point(latest.value).None? || QuoteReference(latest.value).None?
         || QuoteReference(previous.value).None? || x.point(pair.value.0).None? || x.point(pair.value.1).None?
         || pair.value.1.publishedAt.None? then None
      else
        Some(Shown(
          QuoteReference(previous.value).value, QuoteReference(latest.value).value, x.point(latest.value).value,
          x.point(pair.value.0).value, x.point(pair.value.1).value, pair.value.1.publishedAt.value))
  }

  function AddShown(x: Settings, d: Draft, c: Shown): Draft {
    var change := c.later.value - c.earlier.value;
    SayClose(EnterClose(d, c.from, c.to, c.latest, c.earlier, c.later, c.asOf), c.latest.product, change, [c.from, c.to],
             UrgentMove(x.alertPercent, change, c.earlier.value))
  }

  lemma ShownIs(x: Settings, d: Draft, c: Shown, change: real, urgent: bool)
    requires change == c.later.value - c.earlier.value && urgent == UrgentMove(x.alertPercent, change, c.earlier.value)
    ensures AddShown(x, d, c)
      == SayClose(EnterClose(d, c.from, c.to, c.latest, c.earlier, c.later, c.asOf), c.latest.product, change, [c.from, c.to], urgent)
  {
  }

  function AddSeries(x: Settings, d: Draft, s: Series): Draft {
    var shown := ShownOf(x, s.records);
    if shown.None? then d else AddShown(x, d, shown.value)
  }

  function AddAllSeries(x: Settings, d: Draft, all: seq<Series>): Draft
    decreases |all|
  {
    if all == [] then d else AddAllSeries(x, AddSeries(x, d, all[0]), all[1..])
  }

  // ---- the whole build ----

  function ByEventId(a: Event, b: Event): bool { StringLess(a.eventId, b.eventId) }
  function ByKey(a: Group, b: Group): bool { KeyLess(a.key, b.key) }
  function BySeries(a: Series, b: Series): bool { StringLess(a.id, b.id) }

  function Compose(x: Settings, reportDate: int, cutoff: Time, available: seq<SourceRecord>, events: seq<Event>, kept: seq<Observation>): Draft {
    var d1 := AddEvents(x, cutoff, Index(available), EmptyDraft, SortBy(ByEventId, events));
    var (d2, groups) := AddObservations(x, d1, [], kept);
    var d3 := AddGroups(x, reportDate, d2, SortBy(ByKey, groups));
    AddAllSeries(x, d3, SortBy(BySeries, SeriesOf(x, available)))
  }

  function Assessed(cutoff: Time): Event -> bool { (e: Event) => e.assessedAt <= cutoff }

  /** What the report says, given what it may see of the snapshot. */
  function Visible(x: Settings, reportDate: int, cutoff: Time, records: seq<SourceRecord>, events: seq<Event>, os: seq<Observation>): Result<Draft> {
    var available := Filter((r: SourceRecord) => Usable(r, cutoff), Latest(records));
    var current := Current(events);
    if current.Err? then Err(current.code)
    else
      var kept := Kept(Filter((o: Observation) => Accepted(x, cutoff, Index(available), o), os));
      if kept.Err? then Err(kept.code) else Ok(Compose(x, reportDate, cutoff, available, current.value, kept.value))
  }

  function Build(x: Settings, q: Request, now: Time): Result<Draft> {
    if |q.records| > 5000 || |q.events| > 1000 || |q.observations| > 5000 then Err(InvalidInput)
    else if q.cutoffAt > now then Err(InvalidInput)
    else if !Indexable(q.records) then Err(InvalidInput)
    else Visible(x, q.reportDate, q.cutoffAt, Filter(Known(q.cutoffAt), q.records), Filter(Assessed(q.cutoffAt), q.events), q.observations)
  }
}
