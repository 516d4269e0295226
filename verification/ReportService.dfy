module ReportService {
  /** The accumulating loops of `SnapshotReportService.build` (`reporting/service.py`), proved against `ReportDraft`. */

  import opened Common
  import opened Contracts
  import opened Revisions
  import opened ReportDraft

  lemma {:induction false} PlaceStays(evidence: seq<Ref>, more: Ref, ref: Ref)
    requires ref in evidence
    ensures EntryPlace(evidence + [more], ref) == EntryPlace(evidence, ref)
    decreases |evidence|
  {
    if evidence[0] != ref {
      assert (evidence + [more])[1..] == evidence[1..] + [more];
      PlaceStays(evidence[1..], more, ref);
    }
  }

  lemma {:induction false} PlaceNew(evidence: seq<Ref>, ref: Ref)
    requires ref !in evidence
    ensures EntryPlace(evidence + [ref], ref) == |evidence|
    decreases |evidence|
  {
    if evidence != [] {
      assert (evidence + [ref])[1..] == evidence[1..] + [ref];
      PlaceNew(evidence[1..], ref);
    }
  }

  lemma IncludeStays(evidence: seq<Ref>, more: Ref, ref: Ref)
    requires ref in evidence
    ensures ref in Include(evidence, more) && NumberOf(Include(evidence, more), ref) == NumberOf(evidence, ref)
  {
    if more !in evidence { PlaceStays(evidence, more, ref); }
  }

  /** `evidence_numbers`: every entry's position, counted from 1. */
  ghost predicate Numbering(evidence: seq<Ref>, numbers: map<Ref, nat>) {
    && (forall ref :: ref in numbers <==> ref in evidence)
    && forall ref :: ref in evidence ==> numbers[ref] == NumberOf(evidence, ref)
  }

  lemma NumberingGrows(evidence: seq<Ref>, numbers: map<Ref, nat>, ref: Ref)
    requires Numbering(evidence, numbers) && ref !in evidence
    ensures Numbering(evidence + [ref], numbers[ref := |evidence| + 1])
  {
    PlaceNew(evidence, ref);
    forall r | r in evidence ensures NumberOf(evidence + [ref], r) == NumberOf(evidence, r) { PlaceStays(evidence, ref, r); }
  }

  class SnapshotReport {
    var facts: seq<Fact>
    var metrics: seq<Metric>
    var analysis: seq<Line>
    var watch: set<Line>
    var evidence: seq<Ref>
    var numbers: map<Ref, nat>

    constructor ()
      ensures Valid() && Draft() == EmptyDraft
    {
      facts, metrics, analysis, watch, evidence, numbers := [], [], [], {}, [], map[];
    }

    ghost predicate Valid()
      reads this
    {
      Numbering(evidence, numbers)
    }

    function Draft(): Draft
      reads this
    {
      ReportDraft.Draft(facts, metrics, analysis, watch, evidence)
    }

    /** `include`: the number printed as `evidence=#k`. */
    method Enter(ref: Ref) returns (k: nat)
      requires Valid()
      modifies this`evidence, this`numbers
      ensures Valid() && evidence == Include(old(evidence), ref) && ref in evidence && k == NumberOf(evidence, ref)
    {
      if ref !in numbers {
        NumberingGrows(evidence, numbers, ref);
        evidence := evidence + [ref];
        numbers := numbers[ref := |evidence|];
      }
      k := numbers[ref];
    }

    /** A metric, and the entry of one reference it cites. */
    method Show(m: Metric, ref: Ref)
      requires Valid()
      modifies this`metrics, this`evidence, this`numbers
      ensures Valid() && Draft() == old(Draft()).(metrics := old(metrics) + [m], evidence := Include(old(evidence), ref))
    {
      metrics := metrics + [m];
      var number := Enter(ref);
    }

    /** A sentence about `refs`, each entered as its citation is printed. */
    method Cite(about: Label, refs: seq<Ref>) returns (l: Line)
      requires Valid()
      modifies this`evidence, this`numbers
      ensures Valid() && evidence == IncludeAll(old(evidence), refs) && l == Line(about, refs, Numbers(evidence, refs))
    {
      var printed: seq<nat> := [];
      var i := 0;
      while i < |refs|
        invariant i <= |refs| && |printed| == i && Valid()
        invariant IncludeAll(old(evidence), refs) == IncludeAll(evidence, refs[i..])
        invariant forall k :: 0 <= k < i ==> refs[k] in evidence && printed[k] == NumberOf(evidence, refs[k])
      {
        assert refs[i..][0] == refs[i] && refs[i..][1..] == refs[i + 1..];
        forall k | 0 <= k < i ensures NumberOf(Include(evidence, refs[i]), refs[k]) == NumberOf(evidence, refs[k]) {
          IncludeStays(evidence, refs[i], refs[k]);
        }
        var number := Enter(refs[i]);
        printed := printed + [number];
        i := i + 1;
      }
      l := Line(about, refs, printed);
    }

    method Analysis(about: Label, refs: seq<Ref>)
      requires Valid()
      modifies this`evidence, this`numbers, this`analysis
      ensures Valid() && Draft() == Analyse(old(Draft()), about, refs)
    {
      var l := Cite(about, refs);
      analysis := analysis + [l];
    }

    method WatchItem(about: Label, refs: seq<Ref>)
      requires Valid()
      modifies this`evidence, this`numbers, this`watch
      ensures Valid() && Draft() == Watch(old(Draft()), about, refs)
    {
      var l := Cite(about, refs);
      watch := watch + {l};
    }

    method Facts(e: Event, refs: seq<Ref>)
      requires Valid()
      modifies this
      ensures Valid() && Draft() == AddFacts(old(Draft()), e, refs)
    {
      var i := 0;
      while i < |refs|
        invariant i <= |refs| && Valid()
        invariant AddFacts(old(Draft()), e, refs) == AddFacts(Draft(), e, refs[i..])
      {
        assert refs[i..][0] == refs[i] && refs[i..][1..] == refs[i + 1..];
        facts := facts + [Fact(e.assertion, e.status, Cut(refs[i].excerpt), [refs[i]])];
        var number := Enter(refs[i]);
        i := i + 1;
      }
    }

    method Impact(impact: Label, watched: Label, refs: seq<Ref>)
      requires Valid()
      modifies this
      ensures Valid() && Draft() == AddImpact(old(Draft()), impact, watched, refs)
    {
      if refs != [] {
        Analysis(impact, refs);
        WatchItem(watched, refs);
      }
    }

    /** One more reference for an effect, which starts its own list if it has none. */
    static method Effects(says: string -> bool, refs: seq<Ref>) returns (effect: seq<Ref>)
      ensures effect == Filter((ref: Ref) => says(ref.excerpt), refs)
    {
      effect := [];
      var keep := (ref: Ref) => says(ref.excerpt);
      for n := 0 to |refs|
        invariant effect == Filter(keep, refs[..n])
      {
        assert refs[..n + 1][..n] == refs[..n];
        if says(refs[n].excerpt) {
          effect := effect + [refs[n]];
        }
      }
      assert refs[..|refs|] == refs;
    }

    /** The body of the loop over current events. */
    method EventBody(x: Settings, cutoff: Time, available: map<RecordKey, SourceRecord>, e: Event)
      requires Valid()
      modifies this
      ensures Valid() && Draft() == AddEvent(x, cutoff, available, old(Draft()), e)
    {
      if !AllValid(e.evidence, available) {
        return;
      }
      var refs := SortedRefs(e.evidence);
      Facts(e, refs);
      if !Established(x, cutoff, e, refs, available) {
        WatchItem(ToVerify(e.eventId, e.revision), refs);
        return;
      }
      var supply := Effects(x.supply, refs);
      var transport := Effects(x.transport, refs);
      Impact(SupplyImpact(e.eventId, e.revision), WatchSupply(e.eventId, e.revision), supply);
      Impact(TransportImpact(e.eventId, e.revision), WatchTransport(e.eventId, e.revision), transport);
      if e.status != IndependentMultiSource {
        WatchItem(SinglePublisher(e.eventId, e.revision), refs);
      }
    }

    method Events(x: Settings, cutoff: Time, available: map<RecordKey, SourceRecord>, events: seq<Event>)
      requires Valid()
      modifies this
      ensures Valid() && Draft() == AddEvents(x, cutoff, available, old(Draft()), events)
    {
      var i := 0;
      while i < |events|
        invariant i <= |events| && Valid()
        invariant AddEvents(x, cutoff, available, old(Draft()), events) == AddEvents(x, cutoff, available, Draft(), events[i..])
      {
        assert events[i..][0] == events[i] && events[i..][1..] == events[i + 1..];
        EventBody(x, cutoff, available, events[i]);
        i := i + 1;
      }
    }

    /** The loop over kept observations; comparable quotes go into groups. */
    method Observations(x: Settings, os: seq<Observation>) returns (groups: seq<Group>)
      requires Valid()
      modifies this
      ensures Valid() && (Draft(), groups) == AddObservations(x, old(Draft()), [], os)
    {
      groups := [];
      var i := 0;
      ghost var spec := AddObservations(x, Draft(), [], os);
      while i < |os|
        invariant i <= |os| && Valid()
        invariant spec == AddObservations(x, Draft(), groups, os[i..])
      {
        var o := os[i];
        assert os[i..][0] == o && os[i..][1..] == os[i + 1..];
        i := i + 1;
        if o.period.Some? {
          Show(Metric(Background(o.observationId), Some(o.value), o.unit, o.asOf, [o.evidence], o.quality), o.evidence);
          Analysis(BackgroundNote(o.observationId), [o.evidence]);
          continue;
        }
        var key := ComparisonKey(x, o);
        if key.None? {
          Show(Metric(Uncomparable(o.observationId), Some(o.value), o.unit, o.asOf, [o.evidence], Incomplete), o.evidence);
          continue;
        }
        groups := AddToGroup(groups, key.value, o);
      }
    }

    /** The body of the loop over groups. */
    method GroupBody(x: Settings, reportDate: int, g: Group)
      requires Valid() && g.items != []
      modifies this
      ensures Valid() && Draft() == AddQuotes(x, reportDate, old(Draft()), g)
    {
      var items := SortBy(QuoteLess, g.items);
      SameMembers(items, g.items);
      var latest := items[|items| - 1];
      var current, change := IsCurrent(latest, reportDate), Change(items, reportDate);
      LatestLine(g.key, latest, current);
      if change.None? {
        UnknownLine(g.key, latest, current);
      } else {
        var reached := Reaches(x.thresholds, g.key, change.value.0);
        ChangeLines(g.key, change.value.0, change.value.1, latest, reached);
      }
      QuotesAre(x, reportDate, old(Draft()), g, items, latest, current, change);
    }

    method UnknownLine(key: Key, latest: Observation, current: bool)
      requires Valid()
      modifies this`metrics
      ensures Valid() && Draft() == NoChange(old(Draft()), key, latest, current)
    {
      metrics := metrics + [Metric(QuoteChange(key), None, latest.unit, latest.asOf, [latest.evidence],
                                   if current then Incomplete else Stale)];
    }

    method LatestLine(key: Key, latest: Observation, current: bool)
      requires Valid()
      modifies this
      ensures Valid() && Draft() == ShowQuote(old(Draft()), key, latest, current)
    {
      Show(Metric(LatestQuote(key), Some(latest.value), latest.unit, latest.asOf, [latest.evidence],
                  if current then ValidQuote else Stale), latest.evidence);
    }

    method ChangeLines(key: Key, delta: real, previous: Observation, latest: Observation, reached: bool)
      requires Valid()
      modifies this
      ensures Valid() && Draft() == AddChange(old(Draft()), key, delta, previous, latest, reached)
    {
      var refs := [previous.evidence, latest.evidence];
      var number := Enter(previous.evidence);
      if reached {
        WatchItem(ThresholdReached(key, delta), refs);
      }
      Analysis(QuoteNote(key, delta), refs);
      metrics := metrics + [Metric(QuoteChange(key), Some(delta), latest.unit, latest.asOf, refs, ValidQuote)];
    }

    method Quotes(x: Settings, reportDate: int, groups: seq<Group>)
      requires Valid()
      modifies this
      ensures Valid() && Draft() == AddGroups(x, reportDate, old(Draft()), groups)
    {
      var i := 0;
      while i < |groups|
        invariant i <= |groups| && Valid()
        invariant AddGroups(x, reportDate, old(Draft()), groups) == AddGroups(x, reportDate, Draft(), groups[i..])
      {
        assert groups[i..][0] == groups[i] && groups[i..][1..] == groups[i + 1..];
        if groups[i].items != [] {
          GroupBody(x, reportDate, groups[i]);
        }
        i := i + 1;
      }
    }

    /** The body of the loop over EIA series. */
    method SeriesBody(x: Settings, s: Series)
      requires Valid()
      modifies this
      ensures Valid() && Draft() == AddSeries(x, old(Draft()), s)
    {
      var shown := ShownOf(x, s.records);
      if shown.Some? {
        ShownBody(x, shown.value);
      }
    }

    method ShownBody(x: Settings, c: Shown)
      requires Valid()
      modifies this
      ensures Valid() && Draft() == AddShown(x, old(Draft()), c)
    {
      var change := c.later.value - c.earlier.value;
      Closes(c.from, c.to, c.latest, c.earlier, c.later, c.asOf);
      var urgent := UrgentMove(x.alertPercent, change, c.earlier.value);
      CloseLines(c.latest.product, change, [c.from, c.to], urgent);
      ShownIs(x, old(Draft()), c, change, urgent);
    }

    method CloseLines(product: string, change: real, refs: seq<Ref>, urgent: bool)
      requires Valid()
      modifies this
      ensures Valid() && Draft() == SayClose(old(Draft()), product, change, refs, urgent)
    {
      Analysis(EiaNote(product, change), refs);
      if urgent {
        WatchItem(EiaThreshold(product, change), refs);
      }
    }

    method Closes(from: Ref, to: Ref, shown: Point, earlier: Point, later: Point, asOf: Time)
      requires Valid()
      modifies this
      ensures Valid() && Draft() == EnterClose(old(Draft()), from, to, shown, earlier, later, asOf)
    {
      Show(Metric(EiaClose(shown.product, later.period), Some(later.value), shown.unit, asOf, [to], ValidQuote), to);
      Show(Metric(EiaChange(shown.product), Some(later.value - earlier.value), shown.unit, asOf, [from, to], ValidQuote), from);
    }

    method AllSeries(x: Settings, all: seq<Series>)
      requires Valid()
      modifies this
      ensures Valid() && Draft() == AddAllSeries(x, old(Draft()), all)
    {
      var i := 0;
      while i < |all|
        invariant i <= |all| && Valid()
        invariant AddAllSeries(x, old(Draft()), all) == AddAllSeries(x, Draft(), all[i..])
      {
        assert all[i..][0] == all[i] && all[i..][1..] == all[i + 1..];
        SeriesBody(x, all[i]);
        i := i + 1;
      }
    }
  }

  // ---- selection loops ----

  method CurrentEvents(events: seq<Event>, cutoff: Time) returns (res: Result<seq<Event>>)
    ensures res == Current(Filter(Assessed(cutoff), events))
  {
    var current: seq<Event> := [];
    for n := 0 to |events|
      invariant Current(Filter(Assessed(cutoff), events[..n])) == Ok(current)
    {
      var e := events[n];
      assert events[..n + 1][..n] == events[..n];
      if e.assessedAt > cutoff {
        continue;
      }
      ghost var before := Filter(Assessed(cutoff), events[..n]);
      assert Filter(Assessed(cutoff), events[..n + 1]) == before + [e] && (before + [e])[..|before|] == before;
      var i := EventPlace(current, e.eventId);
      if i < |current| && current[i].revision == e.revision && current[i] != e {
        FilterGrows(Assessed(cutoff), events, n + 1);
        CurrentError(Filter(Assessed(cutoff), events[..n + 1]), Filter(Assessed(cutoff), events));
        return Err(InvalidInput);
      }
      if i == |current| {
        current := current + [e];
      } else if e.revision > current[i].revision {
        current := current[i := e];
      }
    }
    assert events[..|events|] == events;
    res := Ok(current);
  }

  lemma {:induction false} FilterGrows<T(!new)>(keep: T -> bool, s: seq<T>, n: nat)
    requires n <= |s|
    ensures Filter(keep, s[..n]) <= Filter(keep, s)
    decreases |s|
  {
    if n == |s| {
      assert s[..n] == s;
    } else {
      assert s[..|s| - 1][..n] == s[..n];
      FilterGrows(keep, s[..|s| - 1], n);
    }
  }

  lemma {:induction false} CurrentError(prefix: seq<Event>, events: seq<Event>)
    requires prefix <= events && Current(prefix).Err?
    ensures Current(events) == Current(prefix)
    decreases |events|
  {
    if |prefix| == |events| {
      assert prefix == events;
    } else {
      CurrentError(prefix, events[..|events| - 1]);
    }
  }

  method KeptObservations(os: seq<Observation>, accepted: Observation -> bool) returns (res: Result<seq<Observation>>)
    ensures res == Kept(Filter(accepted, os))
  {
    var kept: seq<Observation> := [];
    for n := 0 to |os|
      invariant Kept(Filter(accepted, os[..n])) == Ok(kept)
    {
      var o := os[n];
      assert os[..n + 1][..n] == os[..n];
      if !accepted(o) {
        continue;
      }
      ghost var before := Filter(accepted, os[..n]);
      assert Filter(accepted, os[..n + 1]) == before + [o] && (before + [o])[..|before|] == before;
      var i := ObservationPlace(kept, o.observationId);
      if i < |kept| && kept[i].revision == o.revision && kept[i] != o {
        FilterGrows(accepted, os, n + 1);
        KeptError(Filter(accepted, os[..n + 1]), Filter(accepted, os));
        return Err(InvalidInput);
      }
      if i == |kept| {
        kept := kept + [o];
      } else if kept[i].revision < o.revision {
        kept := kept[i := o];
      }
    }
    assert os[..|os|] == os;
    res := Ok(kept);
  }

  lemma {:induction false} KeptError(prefix: seq<Observation>, os: seq<Observation>)
    requires prefix <= os && Kept(prefix).Err?
    ensures Kept(os) == Kept(prefix)
    decreases |os|
  {
    if |prefix| == |os| {
      assert prefix == os;
    } else {
      KeptError(prefix, os[..|os| - 1]);
    }
  }

  /** `build`. */
  method BuildReport(x: Settings, q: Request, now: Time) returns (res: Result<Draft>)
    ensures res == Build(x, q, now)
  {
    if |q.records| > 5000 || |q.events| > 1000 || |q.observations| > 5000 {
      return Err(InvalidInput);
    }
    if q.cutoffAt > now {
      return Err(InvalidInput);
    }
    var indexed := IndexRecords(q.records);
    if indexed.Err? {
      return Err(InvalidInput);
    }
    var latest := LatestRevisions(q.records, Known(q.cutoffAt));
    var available := Filter((r: SourceRecord) => Usable(r, q.cutoffAt), latest);
    var index := Index(available);
    var current := CurrentEvents(q.events, q.cutoffAt);
    if current.Err? {
      return Err(current.code);
    }
    var kept := KeptObservations(q.observations, (o: Observation) => Accepted(x, q.cutoffAt, index, o));
    if kept.Err? {
      return Err(kept.code);
    }
    var report := new SnapshotReport();
    report.Events(x, q.cutoffAt, index, SortBy(ByEventId, current.value));
    var groups := report.Observations(x, kept.value);
    report.Quotes(x, q.reportDate, SortBy(ByKey, groups));
    report.AllSeries(x, SortBy(BySeries, SeriesOf(x, available)));
    res := Ok(report.Draft());
  }
}
