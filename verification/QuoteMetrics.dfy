/** Which quote changes a built report shows, whatever order its observations came in. */
module QuoteMetrics {
  import opened Common
  import opened Contracts
  import opened Revisions
  import opened ReportDraft
  import opened ReportQuotes

  // ---- from the observations to the report ----

  predicate LikeForLike(x: Settings, key: Key, o: Observation) { Comparable(x, o) && ComparisonKey(x, o) == Some(key) }

  /** The observations with this comparison key, in order. */
  function ItemsOf(x: Settings, key: Key, os: seq<Observation>): seq<Observation> {
    Filter((o: Observation) => LikeForLike(x, key, o), os)
  }

  /** Each group holds exactly its key's items, and each key with items has one group. */
  ghost predicate Grouped(groups: seq<Group>, items: Key -> seq<Observation>) {
    GroupItems(groups, items) && GroupPlaced(groups, items) && OneGroupEach(groups)
  }

  ghost predicate GroupItems(groups: seq<Group>, items: Key -> seq<Observation>) {
    forall i :: 0 <= i < |groups| ==> groups[i].items == items(groups[i].key) && groups[i].items != []
  }

  ghost predicate GroupPlaced(groups: seq<Group>, items: Key -> seq<Observation>) {
    forall key :: items(key) != [] ==> GroupPlace(groups, key) < |groups|
  }

  predicate OneGroupEach(groups: seq<Group>) { forall i, j :: 0 <= i < j < |groups| ==> groups[i].key != groups[j].key }

  function Items(x: Settings, read: seq<Observation>): Key -> seq<Observation> { key => ItemsOf(x, key, read) }

  lemma ItemsNext(x: Settings, key: Key, read: seq<Observation>, o: Observation)
    ensures ItemsOf(x, key, read + [o]) == ItemsOf(x, key, read) + if LikeForLike(x, key, o) then [o] else []
  {
    assert (read + [o])[..|read|] == read;
  }

  lemma {:induction false} PlaceIs(groups: seq<Group>, key: Key, i: nat)
    requires i < |groups| && groups[i].key == key && OneGroupEach(groups)
    ensures GroupPlace(groups, key) == i
    decreases |groups|
  {
    if i > 0 {
      assert groups[0].key != groups[i].key;
      PlaceIs(groups[1..], key, i - 1);
    }
  }

  lemma {:induction false} PlaceAbsent(groups: seq<Group>, key: Key, i: nat)
    requires GroupPlace(groups, key) == |groups| && i < |groups|
    ensures groups[i].key != key
    decreases |groups|
  {
    if i > 0 { PlaceAbsent(groups[1..], key, i - 1); }
  }

  lemma NewGroup(groups: seq<Group>, key: Key, o: Observation, items: Key -> seq<Observation>, next: Key -> seq<Observation>)
    requires Grouped(groups, items) && GroupPlace(groups, key) == |groups|
    requires next(key) == items(key) + [o] && forall k :: k != key ==> next(k) == items(k)
    ensures Grouped(AddToGroup(groups, key, o), next)
  {
    forall j | 0 <= j < |groups| ensures groups[j].key != key { PlaceAbsent(groups, key, j); }
    var after := groups + [Group(key, [o])];
    assert AddToGroup(groups, key, o) == after && items(key) == [];
    assert GroupItems(after, next) by {
      forall i | 0 <= i < |after| ensures after[i].items == next(after[i].key) && after[i].items != [] {
        if i < |groups| { assert after[i] == groups[i]; }
      }
    }
    assert GroupPlaced(after, next) by {
      forall k | next(k) != [] ensures GroupPlace(after, k) < |after| { StillPlaced(groups, Group(key, [o]), k); }
    }
  }

  lemma {:induction false} StillPlaced(groups: seq<Group>, g: Group, k: Key)
    requires GroupPlace(groups, k) < |groups| || g.key == k
    ensures GroupPlace(groups + [g], k) < |groups + [g]|
    decreases |groups|
  {
    if groups != [] && groups[0].key != k {
      assert (groups + [g])[1..] == groups[1..] + [g];
      StillPlaced(groups[1..], g, k);
    }
  }

  lemma OldGroup(groups: seq<Group>, key: Key, o: Observation, items: Key -> seq<Observation>, next: Key -> seq<Observation>)
    requires Grouped(groups, items) && GroupPlace(groups, key) < |groups|
    requires next(key) == items(key) + [o] && forall k :: k != key ==> next(k) == items(k)
    ensures Grouped(AddToGroup(groups, key, o), next)
  {
    var i := GroupPlace(groups, key);
    var after := groups[i := Group(key, groups[i].items + [o])];
    assert AddToGroup(groups, key, o) == after;
    SameKeys(groups, i, after);
    assert GroupItems(after, next) by {
      forall j | 0 <= j < |after| ensures after[j].items == next(after[j].key) && after[j].items != [] {
        if j != i { DistinctKeys(groups, i, j); }
      }
    }
    assert GroupPlaced(after, next) by {
      forall k | next(k) != [] ensures GroupPlace(after, k) < |after| {
        if k == key { PlaceIs(after, k, i); } else { PlaceIs(after, k, GroupPlace(groups, k)); }
      }
    }
  }

  lemma DistinctKeys(groups: seq<Group>, i: nat, j: nat)
    requires OneGroupEach(groups) && i < |groups| && j < |groups| && i != j
    ensures groups[i].key != groups[j].key
  {
    if j < i { assert groups[j].key != groups[i].key; }
  }

  lemma SameKeys(groups: seq<Group>, i: nat, after: seq<Group>)
    requires OneGroupEach(groups) && |after| == |groups| && forall j :: 0 <= j < |groups| ==> after[j].key == groups[j].key
    ensures OneGroupEach(after)
  {
  }

  lemma GroupsNext(x: Settings, groups: seq<Group>, read: seq<Observation>, o: Observation)
    requires Grouped(groups, Items(x, read))
    ensures Grouped(if Comparable(x, o) then AddToGroup(groups, ComparisonKey(x, o).value, o) else groups, Items(x, read + [o]))
  {
    var items, next := Items(x, read), Items(x, read + [o]);
    forall key ensures next(key) == items(key) + if LikeForLike(x, key, o) then [o] else [] { ItemsNext(x, key, read, o); }
    if Comparable(x, o) {
      var key := ComparisonKey(x, o).value;
      if GroupPlace(groups, key) == |groups| { NewGroup(groups, key, o, items, next); } else { OldGroup(groups, key, o, items, next); }
    }
  }

  /** The groups and the draft after one more observation. */
  function GroupsAfter(x: Settings, groups: seq<Group>, o: Observation): seq<Group> {
    if Comparable(x, o) then AddToGroup(groups, ComparisonKey(x, o).value, o) else groups
  }

  lemma AddObservationsNext(x: Settings, d: Draft, groups: seq<Group>, os: seq<Observation>)
    requires os != []
    ensures AddObservations(x, d, groups, os) == AddObservations(x, AddObservation(x, d, os[0]), GroupsAfter(x, groups, os[0]), os[1..])
  {
  }

  lemma ReadOne(all: seq<Observation>, n: nat)
    requires n < |all|
    ensures all[n..] != [] && all[n..][0] == all[n] && all[n..][1..] == all[n + 1..] && all[..n] + [all[n]] == all[..n + 1]
  {
  }

  lemma {:induction false} AddObservationsGroup(x: Settings, d: Draft, groups: seq<Group>, all: seq<Observation>, n: nat)
    requires n <= |all| && Grouped(groups, Items(x, all[..n]))
    ensures Grouped(AddObservations(x, d, groups, all[n..]).1, Items(x, all))
    decreases |all| - n
  {
    if n == |all| {
      assert all[..n] == all;
    } else {
      ReadOne(all, n);
      GroupsNext(x, groups, all[..n], all[n]);
      AddObservationsNext(x, d, groups, all[n..]);
      AddObservationsGroup(x, AddObservation(x, d, all[n]), GroupsAfter(x, groups, all[n]), all, n + 1);
    }
  }

  // ---- the metrics of one key ----

  function ForKey(key: Key): Metric -> bool { (m: Metric) => m.name == QuoteChange(key) }

  /** The quote-change metrics of a key, in order. */
  function ChangesOf(metrics: seq<Metric>, key: Key): seq<Metric> { Filter(ForKey(key), metrics) }

  /** What is shown as the change of a key's quotes. */
  function ChangeMetric(reportDate: int, key: Key, items: seq<Observation>): Metric
    requires items != []
  {
    var sorted := SortBy(QuoteLess, items);
    SameMembers(sorted, items);
    var latest, change := sorted[|sorted| - 1], Change(sorted, reportDate);
    if change.None? then
      Metric(QuoteChange(key), None, latest.unit, latest.asOf, [latest.evidence],
             if IsCurrent(latest, reportDate) then Incomplete else Quality.Stale)
    else
      Metric(QuoteChange(key), Some(change.value.0), latest.unit, latest.asOf, [change.value.1.evidence, latest.evidence], ValidQuote)
  }

  function ChangeShown(reportDate: int, key: Key, items: seq<Observation>): seq<Metric> {
    if items == [] then [] else [ChangeMetric(reportDate, key, items)]
  }

  lemma OneMoreMetric(metrics: seq<Metric>, m: Metric, key: Key)
    ensures ChangesOf(metrics + [m], key) == ChangesOf(metrics, key) + if m.name == QuoteChange(key) then [m] else []
  {
    assert (metrics + [m])[..|metrics|] == metrics;
  }

  lemma {:induction false} AddFactsMetrics(d: Draft, e: Event, refs: seq<Ref>)
    ensures AddFacts(d, e, refs).metrics == d.metrics
    decreases |refs|
  {
    if refs != [] {
      AddFactsMetrics(
        d.(facts := d.facts + [Fact(e.assertion, e.status, Cut(refs[0].excerpt), [refs[0]])], evidence := Include(d.evidence, refs[0])),
        e, refs[1..]);
    }
  }

  lemma AddEventMetrics(x: Settings, cutoff: Time, available: map<RecordKey, SourceRecord>, d: Draft, e: Event)
    ensures AddEvent(x, cutoff, available, d, e).metrics == d.metrics
  {
    AddFactsMetrics(d, e, SortedRefs(e.evidence));
  }

  lemma {:induction false} AddEventsMetrics(x: Settings, cutoff: Time, available: map<RecordKey, SourceRecord>, d: Draft, events: seq<Event>)
    ensures AddEvents(x, cutoff, available, d, events).metrics == d.metrics
    decreases |events|
  {
    if events != [] {
      AddEventMetrics(x, cutoff, available, d, events[0]);
      AddEventsMetrics(x, cutoff, available, AddEvent(x, cutoff, available, d, events[0]), events[1..]);
    }
  }

  lemma AddObservationChanges(x: Settings, d: Draft, o: Observation, key: Key)
    ensures ChangesOf(AddObservation(x, d, o).metrics, key) == ChangesOf(d.metrics, key)
  {
    if o.period.Some? {
      OneMoreMetric(d.metrics, Metric(Background(o.observationId), Some(o.value), o.unit, o.asOf, [o.evidence], o.quality), key);
    } else if ComparisonKey(x, o).None? {
      OneMoreMetric(d.metrics, Metric(Uncomparable(o.observationId), Some(o.value), o.unit, o.asOf, [o.evidence], Incomplete), key);
    }
  }

  lemma {:induction false} AddObservationsChanges(x: Settings, d: Draft, groups: seq<Group>, os: seq<Observation>, key: Key)
    ensures ChangesOf(AddObservations(x, d, groups, os).0.metrics, key) == ChangesOf(d.metrics, key)
    decreases |os|
  {
    if os != [] {
      AddObservationChanges(x, d, os[0], key);
      AddObservationsNext(x, d, groups, os);
      AddObservationsChanges(x, AddObservation(x, d, os[0]), GroupsAfter(x, groups, os[0]), os[1..], key);
    }
  }

  lemma AddQuotesChanges(x: Settings, reportDate: int, d: Draft, g: Group, key: Key)
    ensures ChangesOf(AddQuotes(x, reportDate, d, g).metrics, key)
      == ChangesOf(d.metrics, key) + if g.key == key then ChangeShown(reportDate, key, g.items) else []
  {
    if g.items != [] {
      var items := SortBy(QuoteLess, g.items);
      SameMembers(items, g.items);
      var latest := items[|items| - 1];
      var shown := Metric(LatestQuote(g.key), Some(latest.value), latest.unit, latest.asOf, [latest.evidence],
                          if IsCurrent(latest, reportDate) then ValidQuote else Quality.Stale);
      OneMoreMetric(d.metrics, shown, key);
      OneMoreMetric(d.metrics + [shown], ChangeMetric(reportDate, g.key, g.items), key);
      QuotesAppend(x, reportDate, d, g, shown);
    }
  }

  lemma QuotesAppend(x: Settings, reportDate: int, d: Draft, g: Group, shown: Metric)
    requires g.items != []
    requires var items := SortBy(QuoteLess, g.items);
             |items| == |g.items| && var latest := items[|items| - 1];
             shown == Metric(LatestQuote(g.key), Some(latest.value), latest.unit, latest.asOf, [latest.evidence],
                             if IsCurrent(latest, reportDate) then ValidQuote else Quality.Stale)
    ensures AddQuotes(x, reportDate, d, g).metrics == d.metrics + [shown] + [ChangeMetric(reportDate, g.key, g.items)]
  {
  }

  lemma {:induction false} AddGroupsWithout(x: Settings, reportDate: int, d: Draft, groups: seq<Group>, key: Key)
    requires forall g :: g in groups ==> g.key != key
    ensures ChangesOf(AddGroups(x, reportDate, d, groups).metrics, key) == ChangesOf(d.metrics, key)
    decreases |groups|
  {
    if groups != [] {
      assert groups[0] in groups;
      AddQuotesChanges(x, reportDate, d, groups[0], key);
      AddGroupsWithout(x, reportDate, AddQuotes(x, reportDate, d, groups[0]), groups[1..], key);
    }
  }

  lemma {:induction false} AddGroupsWith(x: Settings, reportDate: int, d: Draft, groups: seq<Group>, g: Group)
    requires OneGroupEach(groups) && g in groups
    ensures ChangesOf(AddGroups(x, reportDate, d, groups).metrics, g.key)
      == ChangesOf(d.metrics, g.key) + ChangeShown(reportDate, g.key, g.items)
    decreases |groups|
  {
    var next := AddQuotes(x, reportDate, d, groups[0]);
    AddQuotesChanges(x, reportDate, d, groups[0], g.key);
    if groups[0] == g {
      forall h | h in groups[1..] ensures h.key != g.key {
        var k :| 0 <= k < |groups[1..]| && groups[1..][k] == h;
        assert groups[0].key != groups[k + 1].key;
      }
      AddGroupsWithout(x, reportDate, next, groups[1..], g.key);
    } else {
      var k :| 0 <= k < |groups| && groups[k] == g;
      assert groups[1..][k - 1] == g && groups[0].key != groups[k].key;
      AddGroupsWith(x, reportDate, next, groups[1..], g);
    }
  }

  lemma SortKeepsGroups(groups: seq<Group>)
    requires OneGroupEach(groups)
    ensures OneGroupEach(SortBy(ByKey, groups)) && forall g :: g in SortBy(ByKey, groups) <==> g in groups
  {
    var sorted := SortBy(ByKey, groups);
    SameMembers(sorted, groups);
    forall i, j | 0 <= i < j < |sorted| ensures sorted[i].key != sorted[j].key {
      if sorted[i].key == sorted[j].key {
        assert sorted[i] in groups && sorted[j] in groups;
        var a :| 0 <= a < |groups| && groups[a] == sorted[i];
        var b :| 0 <= b < |groups| && groups[b] == sorted[j];
        assert a == b;
        Twice(sorted, i, j);
        Once(groups, a);
      }
    }
  }

  lemma Twice(s: seq<Group>, i: nat, j: nat)
    requires i < j < |s| && s[i] == s[j]
    ensures multiset(s)[s[i]] >= 2
  {
    assert s == s[..i] + [s[i]] + s[i + 1..j] + [s[j]] + s[j + 1..];
  }

  lemma Once(s: seq<Group>, a: nat)
    requires a < |s| && OneGroupEach(s)
    ensures multiset(s)[s[a]] == 1
  {
    assert s == s[..a] + [s[a]] + s[a + 1..];
    assert s[a] !in s[..a] && s[a] !in s[a + 1..];
  }

  lemma {:induction false} AddAllSeriesChanges(x: Settings, d: Draft, all: seq<Series>, key: Key)
    ensures ChangesOf(AddAllSeries(x, d, all).metrics, key) == ChangesOf(d.metrics, key)
    decreases |all|
  {
    if all != [] {
      AddSeriesChanges(x, d, all[0], key);
      AddAllSeriesChanges(x, AddSeries(x, d, all[0]), all[1..], key);
    }
  }

  lemma AddSeriesChanges(x: Settings, d: Draft, s: Series, key: Key)
    ensures ChangesOf(AddSeries(x, d, s).metrics, key) == ChangesOf(d.metrics, key)
  {
    var shown := ShownOf(x, s.records);
    if shown.Some? {
      var c := shown.value;
      var close := Metric(EiaClose(c.latest.product, c.later.period), Some(c.later.value), c.latest.unit, c.asOf, [c.to], ValidQuote);
      var moved := Metric(
        EiaChange(c.latest.product), Some(c.later.value - c.earlier.value), c.latest.unit, c.asOf, [c.from, c.to], ValidQuote);
      OneMoreMetric(d.metrics, close, key);
      OneMoreMetric(d.metrics + [close], moved, key);
      ShownAppends(x, d, c, close, moved);
    }
  }

  lemma ShownAppends(x: Settings, d: Draft, c: Shown, close: Metric, moved: Metric)
    requires close == Metric(EiaClose(c.latest.product, c.later.period), Some(c.later.value), c.latest.unit, c.asOf, [c.to], ValidQuote)
    requires moved == Metric(
      EiaChange(c.latest.product), Some(c.later.value - c.earlier.value), c.latest.unit, c.asOf, [c.from, c.to], ValidQuote)
    ensures AddShown(x, d, c).metrics == d.metrics + [close] + [moved]
  {
  }

  /** One metric for each comparison key with kept quotes, and none for any other. */
  lemma ComposedChanges(
    x: Settings, reportDate: int, cutoff: Time, available: seq<SourceRecord>, events: seq<Event>, kept: seq<Observation>, key: Key)
    ensures ChangesOf(Compose(x, reportDate, cutoff, available, events, kept).metrics, key)
      == ChangeShown(reportDate, key, ItemsOf(x, key, kept))
  {
    AddEventsMetrics(x, cutoff, Index(available), EmptyDraft, SortBy(ByEventId, events));
    var d1 := AddEvents(x, cutoff, Index(available), EmptyDraft, SortBy(ByEventId, events));
    AddObservationsChanges(x, d1, [], kept, key);
    AddObservationsGroup(x, d1, [], kept, 0);
    assert kept[0..] == kept;
    var (d2, groups) := AddObservations(x, d1, [], kept);
    var sorted := SortBy(ByKey, groups);
    SortKeepsGroups(groups);
    GroupsShown(x, reportDate, d2, groups, sorted, kept, key);
    AddAllSeriesChanges(x, AddGroups(x, reportDate, d2, sorted), SortBy(BySeries, SeriesOf(x, available)), key);
  }

  lemma GroupsShown(
    x: Settings, reportDate: int, d: Draft, groups: seq<Group>, sorted: seq<Group>, kept: seq<Observation>, key: Key)
    requires Grouped(groups, Items(x, kept)) && OneGroupEach(sorted) && forall g :: g in sorted <==> g in groups
    ensures ChangesOf(AddGroups(x, reportDate, d, sorted).metrics, key)
      == ChangesOf(d.metrics, key) + ChangeShown(reportDate, key, ItemsOf(x, key, kept))
  {
    assert Items(x, kept)(key) == ItemsOf(x, key, kept);
    if ItemsOf(x, key, kept) == [] {
      forall g | g in sorted ensures g.key != key {
        var i :| 0 <= i < |groups| && groups[i] == g;
        assert groups[i].items == Items(x, kept)(groups[i].key);
      }
      AddGroupsWithout(x, reportDate, d, sorted, key);
    } else {
      var g := groups[GroupPlace(groups, key)];
      assert g in groups && g.items == Items(x, kept)(g.key);
      AddGroupsWith(x, reportDate, d, sorted, g);
    }
  }

  // ---- the observations in force ----

  function AcceptedOf(x: Settings, q: Request): seq<Observation> {
    Filter((o: Observation) => Accepted(x, q.cutoffAt, Index(Available(q.cutoffAt, q.records)), o), q.observations)
  }

  /** No accepted revision of this observation is higher. */
  predicate InForce(os: seq<Observation>, o: Observation) {
    o in os && forall p :: p in os && p.observationId == o.observationId ==> p.revision <= o.revision
  }

  predicate OnePerId(os: seq<Observation>) { forall i, j :: 0 <= i < j < |os| ==> os[i].observationId != os[j].observationId }

  predicate Covered(kept: seq<Observation>, o: Observation) {
    exists k :: k in kept && k.observationId == o.observationId && (k == o || k.revision > o.revision)
  }

  lemma CoveredBy(before: seq<Observation>, after: seq<Observation>)
    requires forall k :: k in before ==> Covered(after, k)
    ensures forall p :: Covered(before, p) ==> Covered(after, p)
  {
    forall p | Covered(before, p) ensures Covered(after, p) {
      var k :| k in before && k.observationId == p.observationId && (k == p || k.revision > p.revision);
      var l :| l in after && l.observationId == k.observationId && (l == k || l.revision > k.revision);
    }
  }

  lemma KeepNew(before: seq<Observation>, o: Observation)
    requires OnePerId(before) && ObservationPlace(before, o.observationId) == |before|
    ensures OnePerId(before + [o]) && Covered(before + [o], o) && forall k :: k in before ==> Covered(before + [o], k)
  {
    assert o in before + [o] && forall k :: k in before ==> k in before + [o];
  }

  lemma KeepNewer(before: seq<Observation>, i: nat, o: Observation)
    requires OnePerId(before) && i < |before| && before[i].observationId == o.observationId && before[i].revision < o.revision
    ensures OnePerId(before[i := o]) && Covered(before[i := o], o) && forall k :: k in before ==> Covered(before[i := o], k)
  {
    var after := before[i := o];
    assert after[i] in after;
    forall k | k in before ensures Covered(after, k) {
      var j :| 0 <= j < |before| && before[j] == k;
      assert after[j] in after;
    }
  }

  /** One turn of the loop. */
  lemma KeepOne(before: seq<Observation>, o: Observation, after: seq<Observation>)
    requires OnePerId(before)
    requires var i := ObservationPlace(before, o.observationId);
             if i == |before| then after == before + [o]
             else if before[i].revision < o.revision then after == before[i := o]
             else after == before && (before[i].revision == o.revision ==> before[i] == o)
    ensures OnePerId(after) && Covered(after, o) && (forall k :: k in after ==> k in before || k == o)
    ensures forall p :: Covered(before, p) ==> Covered(after, p)
  {
    var i := ObservationPlace(before, o.observationId);
    if i == |before| {
      KeepNew(before, o);
      CoveredBy(before, after);
    } else if before[i].revision < o.revision {
      KeepNewer(before, i, o);
      CoveredBy(before, after);
    } else {
      assert before[i] in after;
    }
  }

  lemma {:induction false} KeptHolds(os: seq<Observation>)
    requires Kept(os).Ok?
    ensures OnePerId(Kept(os).value)
    ensures forall k :: k in Kept(os).value ==> k in os
    ensures forall o :: o in os ==> Covered(Kept(os).value, o)
    decreases |os|
  {
    if os != [] {
      var rest, o := os[..|os| - 1], os[|os| - 1];
      KeptHolds(rest);
      KeepOne(Kept(rest).value, o, Kept(os).value);
      assert forall p :: p in os <==> p in rest || p == o;
    }
  }

  /** The kept observations are exactly those in force. */
  lemma KeptAreInForce(os: seq<Observation>, o: Observation)
    requires Kept(os).Ok?
    ensures o in Kept(os).value <==> InForce(os, o)
  {
    KeptHolds(os);
    var kept := Kept(os).value;
    if o in kept {
      forall p | p in os && p.observationId == o.observationId ensures p.revision <= o.revision {
        assert Covered(kept, p);
        var k :| k in kept && k.observationId == p.observationId && (k == p || k.revision > p.revision);
        var a :| 0 <= a < |kept| && kept[a] == k;
        var b :| 0 <= b < |kept| && kept[b] == o;
        assert a == b;
      }
    }
    if InForce(os, o) {
      assert Covered(kept, o);
      var k :| k in kept && k.observationId == o.observationId && (k == o || k.revision > o.revision);
      assert k in os;
    }
  }

  // ---- the same observations in another order ----

  lemma {:induction false} FilterIds(keep: Observation -> bool, s: seq<Observation>)
    requires OnePerId(s)
    ensures OnePerId(Filter(keep, s))
    decreases |s|
  {
    if s != [] {
      var rest := s[..|s| - 1];
      FilterIds(keep, rest);
      forall i | 0 <= i < |Filter(keep, rest)| ensures Filter(keep, rest)[i].observationId != s[|s| - 1].observationId {
        assert Filter(keep, rest)[i] in rest;
      }
    }
  }

  lemma {:induction false} CountOne(s: seq<Observation>, v: Observation)
    requires OnePerId(s)
    ensures multiset(s)[v] == if v in s then 1 else 0
  {
    if v in s {
      var i :| 0 <= i < |s| && s[i] == v;
      assert s == s[..i] + [v] + s[i + 1..];
      assert v !in s[..i] && v !in s[i + 1..];
    }
  }

  lemma SameItems(a: seq<Observation>, b: seq<Observation>)
    requires OnePerId(a) && OnePerId(b) && forall o :: o in a <==> o in b
    ensures SortBy(QuoteLess, a) == SortBy(QuoteLess, b)
  {
    forall v ensures multiset(a)[v] == multiset(b)[v] {
      CountOne(a, v);
      CountOne(b, v);
    }
    assert multiset(a) == multiset(b);
    forall v, w | v in a && w in a && v != w ensures v.observationId != w.observationId {
      var i :| 0 <= i < |a| && a[i] == v;
      var j :| 0 <= j < |a| && a[j] == w;
      assert if i < j then a[i].observationId != a[j].observationId else a[j].observationId != a[i].observationId;
    }
    SortForgetsOrder(a, b);
  }

  lemma BuiltFrom(x: Settings, q: Request, now: Time)
    requires Build(x, q, now).Ok?
    ensures Kept(AcceptedOf(x, q)).Ok? && Current(Filter(Assessed(q.cutoffAt), q.events)).Ok?
    ensures Build(x, q, now).value
      == Compose(x, q.reportDate, q.cutoffAt, Available(q.cutoffAt, q.records), Current(Filter(Assessed(q.cutoffAt), q.events)).value,
                 Kept(AcceptedOf(x, q)).value)
  {
  }

  /** The quotes of a key that count: in force among the accepted observations. */
  predicate Counts(x: Settings, q: Request, key: Key, o: Observation) { InForce(AcceptedOf(x, q), o) && LikeForLike(x, key, o) }

  lemma ItemsCount(x: Settings, q: Request, key: Key)
    requires Kept(AcceptedOf(x, q)).Ok?
    ensures var items := ItemsOf(x, key, Kept(AcceptedOf(x, q)).value);
            OnePerId(items) && forall o :: o in items <==> Counts(x, q, key, o)
  {
    var kept := Kept(AcceptedOf(x, q)).value;
    KeptHolds(AcceptedOf(x, q));
    FilterIds((o: Observation) => LikeForLike(x, key, o), kept);
    forall o ensures o in ItemsOf(x, key, kept) <==> Counts(x, q, key, o) { KeptAreInForce(AcceptedOf(x, q), o); }
  }

  /** What must be shown of a set of like-for-like quotes, in terms that know no order: the value of the newest less that
      of the nearest strictly earlier time, exactly when the newest is current and neither time is contested. */
  ghost predicate RightChange(items: seq<Observation>, reportDate: int, m: Metric) {
    exists latest :: RightFor(items, reportDate, m, latest)
  }

  ghost predicate RightFor(items: seq<Observation>, reportDate: int, m: Metric, latest: Observation) {
    && latest in items && (forall v :: v in items ==> !QuoteLess(latest, v)) && m.asOf == latest.asOf
    && (m.value.Some? <==>
        (IsCurrent(latest, reportDate) && !Contested(items, latest)
         && exists p :: Nearest(items, latest.asOf, p) && !Contested(items, p)))
    && (m.value.Some? ==> forall p :: Nearest(items, latest.asOf, p) ==> m.value.value == latest.value - p.value)
  }

  lemma ChangeMetricRight(reportDate: int, key: Key, items: seq<Observation>)
    requires items != []
    ensures RightChange(items, reportDate, ChangeMetric(reportDate, key, items))
  {
    ChangeMeans(items, reportDate);
    var sorted := SortBy(QuoteLess, items);
    assert RightFor(items, reportDate, ChangeMetric(reportDate, key, items), sorted[|sorted| - 1]);
  }

  /** One right metric if any quote counts, and otherwise none. */
  ghost predicate Right(counts: Observation -> bool, reportDate: int, changes: seq<Metric>) {
    if exists o :: counts(o) then |changes| == 1 && exists items :: RightOf(counts, reportDate, items, changes[0])
    else changes == []
  }

  ghost predicate RightOf(counts: Observation -> bool, reportDate: int, items: seq<Observation>, m: Metric) {
    (forall o :: o in items <==> counts(o)) && RightChange(items, reportDate, m)
  }

  lemma ShownRight(counts: Observation -> bool, reportDate: int, key: Key, items: seq<Observation>)
    requires forall o :: o in items <==> counts(o)
    ensures Right(counts, reportDate, ChangeShown(reportDate, key, items))
  {
    if items != [] {
      assert counts(items[0]);
      ChangeMetricRight(reportDate, key, items);
      var shown := ChangeMetric(reportDate, key, items);
      assert ChangeShown(reportDate, key, items) == [shown] && RightOf(counts, reportDate, items, [shown][0]);
    }
  }

  /** Main result: a built report has exactly one quote-change metric for each comparison key with quotes that count, and
      none for any other key; and that metric is right for the quotes that count. */
  lemma QuoteChangesShown(x: Settings, q: Request, now: Time, key: Key)
    requires Build(x, q, now).Ok?
    ensures Right((o: Observation) => Counts(x, q, key, o), q.reportDate, ChangesOf(Build(x, q, now).value.metrics, key))
  {
    BuiltFrom(x, q, now);
    var kept := Kept(AcceptedOf(x, q)).value;
    ComposedChanges(x, q.reportDate, q.cutoffAt, Available(q.cutoffAt, q.records),
                    Current(Filter(Assessed(q.cutoffAt), q.events)).value, kept, key);
    ItemsCount(x, q, key);
    ShownRight((o: Observation) => Counts(x, q, key, o), q.reportDate, key, ItemsOf(x, key, kept));
  }

  /** Main result: the input order of the observations changes no quote change, if both orders are accepted. */
  lemma InputOrderChangesNothing(x: Settings, q: Request, now: Time, os: seq<Observation>, key: Key)
    requires multiset(os) == multiset(q.observations)
    requires Build(x, q, now).Ok? && Build(x, q.(observations := os), now).Ok?
    ensures ChangesOf(Build(x, q, now).value.metrics, key) == ChangesOf(Build(x, q.(observations := os), now).value.metrics, key)
  {
    var p := q.(observations := os);
    BuiltFrom(x, q, now);
    BuiltFrom(x, p, now);
    var events := Current(Filter(Assessed(q.cutoffAt), q.events)).value;
    var available := Available(q.cutoffAt, q.records);
    var k, l := Kept(AcceptedOf(x, q)).value, Kept(AcceptedOf(x, p)).value;
    ComposedChanges(x, q.reportDate, q.cutoffAt, available, events, k, key);
    ComposedChanges(x, q.reportDate, q.cutoffAt, available, events, l, key);
    SameAccepted(x, q, p);
    ItemsCount(x, q, key);
    ItemsCount(x, p, key);
    var a, b := ItemsOf(x, key, k), ItemsOf(x, key, l);
    SameItems(a, b);
    SameShown(q.reportDate, key, a, b);
  }

  lemma SameAccepted(x: Settings, q: Request, p: Request)
    requires multiset(p.observations) == multiset(q.observations) && p.cutoffAt == q.cutoffAt && p.records == q.records
    ensures forall o :: o in AcceptedOf(x, q) <==> o in AcceptedOf(x, p)
    ensures forall key, o :: Counts(x, q, key, o) <==> Counts(x, p, key, o)
  {
    SameMembers(p.observations, q.observations);
  }

  lemma SameShown(reportDate: int, key: Key, a: seq<Observation>, b: seq<Observation>)
    requires SortBy(QuoteLess, a) == SortBy(QuoteLess, b)
    ensures ChangeShown(reportDate, key, a) == ChangeShown(reportDate, key, b)
  {
    SameMembers(SortBy(QuoteLess, a), a);
    SameMembers(SortBy(QuoteLess, b), b);
  }

  // ---- which orders are accepted ----

  /** No revision of an observation with two contents. */
  predicate OneContent(os: seq<Observation>) {
    forall a, b :: a in os && b in os && a.observationId == b.observationId && a.revision == b.revision ==> a == b
  }

  lemma {:induction false} OneContentKept(os: seq<Observation>)
    requires OneContent(os)
    ensures Kept(os).Ok?
    decreases |os|
  {
    if os != [] {
      var rest := os[..|os| - 1];
      assert forall o :: o in rest ==> o in os;
      OneContentKept(rest);
      KeptHolds(rest);
      var i := ObservationPlace(Kept(rest).value, os[|os| - 1].observationId);
      if i < |Kept(rest).value| { assert Kept(rest).value[i] in os && os[|os| - 1] in os; }
    }
  }

  lemma {:induction false} RefusedPrefix(os: seq<Observation>, n: nat)
    requires n <= |os| && Kept(os[..n]).Err?
    ensures Kept(os).Err?
    decreases |os|
  {
    if n == |os| {
      assert os[..n] == os;
    } else {
      assert os[..|os| - 1][..n] == os[..n];
      RefusedPrefix(os[..|os| - 1], n);
    }
  }

  lemma KeptSingle(a: Observation)
    ensures Kept([a]) == Ok([a])
  {
    var none: seq<Observation> := [];
    assert [a][..0] == none && none + [a] == [a] && Kept(none) == Ok(none);
  }

  lemma ClashRefused(a: Observation, b: Observation)
    requires a.observationId == b.observationId && a.revision == b.revision && a != b
    ensures Kept([a, b]).Err?
  {
    assert [a, b][..1] == [a] && [a, b][1] == b;
    KeptSingle(a);
  }

  /** The two observations at positions `i` and `j` first. */
  function Front(os: seq<Observation>, i: nat, j: nat): seq<Observation>
    requires i < j < |os|
  {
    [os[i], os[j]] + (os[..i] + os[i + 1..j] + os[j + 1..])
  }

  lemma FrontPermutes(os: seq<Observation>, i: nat, j: nat)
    requires i < j < |os|
    ensures multiset(Front(os, i, j)) == multiset(os)
  {
    assert os == os[..i] + [os[i]] + os[i + 1..j] + [os[j]] + os[j + 1..];
  }

  lemma FrontRefused(keep: Observation -> bool, os: seq<Observation>, i: nat, j: nat)
    requires i < j < |os| && keep(os[i]) && keep(os[j])
    requires os[i].observationId == os[j].observationId && os[i].revision == os[j].revision && os[i] != os[j]
    ensures Kept(Filter(keep, Front(os, i, j))).Err?
  {
    var pair, rest := [os[i], os[j]], os[..i] + os[i + 1..j] + os[j + 1..];
    FilterJoin(keep, pair, rest);
    FilterAll(keep, pair);
    ClashRefused(os[i], os[j]);
    var kept := Filter(keep, Front(os, i, j));
    assert kept[..2] == pair;
    RefusedPrefix(kept, 2);
  }

  lemma ClashSomewhere(x: Settings, q: Request) returns (i: nat, j: nat)
    requires !OneContent(AcceptedOf(x, q))
    ensures i < j < |q.observations| && q.observations[i] != q.observations[j]
    ensures q.observations[i].observationId == q.observations[j].observationId
    ensures q.observations[i].revision == q.observations[j].revision
    ensures q.observations[i] in AcceptedOf(x, q) && q.observations[j] in AcceptedOf(x, q)
  {
    var a, b :| a in AcceptedOf(x, q) && b in AcceptedOf(x, q) && a.observationId == b.observationId && a.revision == b.revision && a != b;
    var k :| 0 <= k < |q.observations| && q.observations[k] == a;
    var l :| 0 <= l < |q.observations| && q.observations[l] == b;
    i, j := if k < l then k else l, if k < l then l else k;
  }

  /** Exactly when a report that is built is built for every order of its observations: when no accepted revision of an
      observation has two contents. */
  lemma EveryOrderBuilds(x: Settings, q: Request, now: Time)
    requires Build(x, q, now).Ok?
    ensures OneContent(AcceptedOf(x, q)) <==>
              forall os: seq<Observation> :: multiset(os) == multiset(q.observations) ==> Build(x, q.(observations := os), now).Ok?
  {
    if OneContent(AcceptedOf(x, q)) {
      forall os: seq<Observation> | multiset(os) == multiset(q.observations) ensures Build(x, q.(observations := os), now).Ok? {
        var p := q.(observations := os);
        SameMembers(os, q.observations);
        SameAccepted(x, q, p);
        OneContentKept(AcceptedOf(x, p));
        KeptBuilds(x, q, p, now);
      }
    } else {
      var i, j := ClashSomewhere(x, q);
      var os := Front(q.observations, i, j);
      var p := q.(observations := os);
      FrontPermutes(q.observations, i, j);
      FrontRefused((o: Observation) => Accepted(x, q.cutoffAt, Index(Available(q.cutoffAt, q.records)), o), q.observations, i, j);
      assert Kept(AcceptedOf(x, p)).Err?;
      KeptBuilds(x, q, p, now);
      assert multiset(os) == multiset(q.observations) && Build(x, q.(observations := os), now).Err?;
    }
  }

  lemma KeptBuilds(x: Settings, q: Request, p: Request, now: Time)
    requires Build(x, q, now).Ok? && p == q.(observations := p.observations) && |p.observations| <= 5000
    ensures Build(x, p, now).Ok? <==> Kept(AcceptedOf(x, p)).Ok?
  {
  }

  /** The input that shows it: two contents of one revision, and a higher revision. Between them, it hides the clash. */
  lemma HiddenClash(a: Observation, b: Observation, c: Observation)
    requires a.observationId == b.observationId == c.observationId && a.revision == b.revision < c.revision && a != b
    ensures Kept([a, c, b]) == Ok([c]) && Kept([a, b, c]).Err?
  {
    assert [a, c, b][..2] == [a, c] && [a, c][..1] == [a];
    KeptSingle(a);
    assert [a][0 := c] == [c];
    assert Kept([a, c]) == Ok([c]);
    ClashRefused(a, b);
    assert [a, b, c][..2] == [a, b];
    RefusedPrefix([a, b, c], 2);
  }

  /** The same in a report: with an otherwise acceptable request, one order is built and the other refused. */
  lemma HiddenClashDecides(x: Settings, q: Request, now: Time, a: Observation, b: Observation, c: Observation)
    requires Build(x, q, now).Ok? && q.observations == [c]
    requires forall o :: o in [a, b, c] ==> Accepted(x, q.cutoffAt, Index(Available(q.cutoffAt, q.records)), o)
    requires a.observationId == b.observationId == c.observationId && a.revision == b.revision < c.revision && a != b
    ensures Build(x, q.(observations := [a, c, b]), now).Ok? && Build(x, q.(observations := [a, b, c]), now).Err?
  {
    HiddenClash(a, b, c);
    var accepted := (o: Observation) => Accepted(x, q.cutoffAt, Index(Available(q.cutoffAt, q.records)), o);
    FilterAll(accepted, [a, c, b]);
    FilterAll(accepted, [a, b, c]);
    KeptBuilds(x, q, q.(observations := [a, c, b]), now);
    KeptBuilds(x, q, q.(observations := [a, b, c]), now);
  }
}
