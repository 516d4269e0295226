/** Which EIA changes a built report shows, whatever order its source records came in. */
module EiaMetrics {
  import opened Common
  import opened Contracts
  import opened Revisions
  import opened ReportDraft
  import opened EiaCloses
  import opened EiaOrder
  import QuoteMetrics

  // ---- the changes among the metrics ----

  /** The values of the EIA changes, in order. */
  function CloseChanges(metrics: seq<Metric>): seq<Option<real>> {
    if metrics == [] then []
    else
      var last := metrics[|metrics| - 1];
      CloseChanges(metrics[..|metrics| - 1]) + if last.name.EiaChange? then [last.value] else []
  }

  lemma OneMoreChange(metrics: seq<Metric>, m: Metric)
    ensures CloseChanges(metrics + [m]) == CloseChanges(metrics) + if m.name.EiaChange? then [m.value] else []
  {
    assert (metrics + [m])[..|metrics|] == metrics;
  }

  lemma TwoMoreChanges(metrics: seq<Metric>, m: Metric, n: Metric)
    requires !m.name.EiaChange?
    ensures CloseChanges(metrics + [m, n]) == CloseChanges(metrics) + if n.name.EiaChange? then [n.value] else []
  {
    OneMoreChange(metrics, m);
    OneMoreChange(metrics + [m], n);
    assert metrics + [m, n] == metrics + [m] + [n];
  }

  lemma {:induction false} AddObservationsChanges(x: Settings, d: Draft, groups: seq<Group>, os: seq<Observation>)
    ensures CloseChanges(AddObservations(x, d, groups, os).0.metrics) == CloseChanges(d.metrics)
    decreases |os|
  {
    if os != [] {
      AddObservationChanges(x, d, os[0]);
      QuoteMetrics.AddObservationsNext(x, d, groups, os);
      AddObservationsChanges(x, AddObservation(x, d, os[0]), QuoteMetrics.GroupsAfter(x, groups, os[0]), os[1..]);
    }
  }

  lemma AddObservationChanges(x: Settings, d: Draft, o: Observation)
    ensures CloseChanges(AddObservation(x, d, o).metrics) == CloseChanges(d.metrics)
  {
    if o.period.Some? {
      OneMoreChange(d.metrics, Metric(Background(o.observationId), Some(o.value), o.unit, o.asOf, [o.evidence], o.quality));
    } else if ComparisonKey(x, o).None? {
      OneMoreChange(d.metrics, Metric(Uncomparable(o.observationId), Some(o.value), o.unit, o.asOf, [o.evidence], Incomplete));
    }
  }

  lemma {:induction false} AddGroupsChanges(x: Settings, reportDate: int, d: Draft, groups: seq<Group>)
    ensures CloseChanges(AddGroups(x, reportDate, d, groups).metrics) == CloseChanges(d.metrics)
    decreases |groups|
  {
    if groups != [] {
      AddQuotesChanges(x, reportDate, d, groups[0]);
      AddGroupsChanges(x, reportDate, AddQuotes(x, reportDate, d, groups[0]), groups[1..]);
    }
  }

  lemma AddQuotesChanges(x: Settings, reportDate: int, d: Draft, g: Group)
    ensures CloseChanges(AddQuotes(x, reportDate, d, g).metrics) == CloseChanges(d.metrics)
  {
    if g.items != [] {
      var items := SortBy(QuoteLess, g.items);
      SameMembers(items, g.items);
      var latest := items[|items| - 1];
      var shown := Metric(LatestQuote(g.key), Some(latest.value), latest.unit, latest.asOf, [latest.evidence],
                          if IsCurrent(latest, reportDate) then ValidQuote else Quality.Stale);
      QuoteMetrics.QuotesAppend(x, reportDate, d, g, shown);
      OneMoreChange(d.metrics, shown);
      OneMoreChange(d.metrics + [shown], QuoteMetrics.ChangeMetric(reportDate, g.key, g.items));
    }
  }

  // ---- the change of each series ----

  /** A record that holds an EIA close has an excerpt to read it from. */
  ghost predicate Readable(x: Settings) { forall r :: x.point(r).Some? ==> QuoteReference(r).Some? }

  predicate InSeries(x: Settings, id: string, r: SourceRecord) { x.point(r).Some? && x.point(r).value.series == id }

  /** The records of a series, in order. */
  function RecordsOf(x: Settings, id: string, records: seq<SourceRecord>): seq<SourceRecord> {
    Filter((r: SourceRecord) => InSeries(x, id, r), records)
  }

  function One(change: Option<real>): seq<Option<real>> { if change.Some? then [change] else [] }

  lemma ShownForChange(
    x: Settings, metrics: seq<Metric>, p: SourceRecord, l: SourceRecord, e: SourceRecord, c: SourceRecord)
    requires Dated(x, p) && Dated(x, l) && QuoteReference(e).Some? && QuoteReference(c).Some? && x.point(c).Some?
    ensures CloseChanges(metrics + ShownFor(x, p, l, e, c)) == CloseChanges(metrics) + [Some(ValueOf(x, l) - ValueOf(x, p))]
  {
    var shown := ShownFor(x, p, l, e, c);
    TwoMoreChanges(metrics, shown[0], shown[1]);
    assert shown == [shown[0], shown[1]];
  }

  /** Its records all belong to the series, and can be quoted. */
  predicate Quotable(x: Settings, s: Series) {
    forall r :: r in s.records ==> InSeries(x, s.id, r) && QuoteReference(r).Some?
  }

  lemma AddSeriesChange(x: Settings, d: Draft, s: Series)
    requires Quotable(x, s)
    ensures CloseChanges(AddSeries(x, d, s).metrics) == CloseChanges(d.metrics) + One(ChangeOf(x, s.records))
  {
    SeriesShows(x, d, s);
    ShownChange(x, s, LastTwo(x, s.records), d.metrics, AddSeries(x, d, s).metrics);
  }

  lemma ShownChange(
    x: Settings, s: Series, pair: Option<(SourceRecord, SourceRecord)>, before: seq<Metric>, after: seq<Metric>)
    requires Quotable(x, s) && pair == LastTwo(x, s.records) && before <= after
    requires if pair.None? then after[|before|..] == [] else exists e, c :: Cites(x, s.records, e, c, after[|before|..])
    ensures CloseChanges(after) == CloseChanges(before) + One(ChangeOf(x, s.records))
  {
    var shown := after[|before|..];
    assert after == before + shown;
    if pair.None? {
      NoPair(x, s.records);
    } else {
      var e, c :| Cites(x, s.records, e, c, shown);
      var p, l := CitedAre(x, s, e, c, shown);
      ShownForChange(x, before, p, l, e, c);
    }
  }

  lemma NoPair(x: Settings, records: seq<SourceRecord>)
    requires LastTwo(x, records).None?
    ensures ChangeOf(x, records).None?
  {
  }

  lemma CitedAre(x: Settings, s: Series, e: SourceRecord, c: SourceRecord, shown: seq<Metric>)
    returns (p: SourceRecord, l: SourceRecord)
    requires Quotable(x, s) && Cites(x, s.records, e, c, shown)
    ensures QuoteReference(e).Some? && QuoteReference(c).Some? && x.point(c).Some? && Dated(x, p) && Dated(x, l)
    ensures shown == ShownFor(x, p, l, e, c) && ChangeOf(x, s.records) == Some(ValueOf(x, l) - ValueOf(x, p))
  {
    assert e in s.records && c in s.records;
    p, l := LastTwo(x, s.records).value.0, LastTwo(x, s.records).value.1;
  }

  /** The changes of these series, in this order. */
  function Moves(change: string -> Option<real>, ids: seq<string>): seq<Option<real>> {
    if ids == [] then [] else One(change(ids[0])) + Moves(change, ids[1..])
  }

  function Ids(all: seq<Series>): (r: seq<string>)
    ensures |r| == |all| && forall k :: 0 <= k < |r| ==> r[k] == all[k].id
  {
    seq(|all|, k requires 0 <= k < |all| => all[k].id)
  }

  /** Each series has its own records, and some. */
  predicate SeriesHold(x: Settings, records: seq<SourceRecord>, all: seq<Series>) {
    forall s :: s in all ==> s.records == RecordsOf(x, s.id, records) && s.records != []
  }

  function SeriesChange(x: Settings, records: seq<SourceRecord>): string -> Option<real> { id => ChangeOf(x, RecordsOf(x, id, records)) }

  predicate Agree(x: Settings, change: string -> Option<real>, all: seq<Series>) {
    forall s :: s in all ==> Quotable(x, s) && change(s.id) == ChangeOf(x, s.records)
  }

  type Adder = (Draft, Series) -> Draft

  function Adding(x: Settings): Adder { (d, s) => AddSeries(x, d, s) }

  function AddEach(add: Adder, d: Draft, all: seq<Series>): Draft
    decreases |all|
  {
    if all == [] then d else AddEach(add, add(d, all[0]), all[1..])
  }

  lemma {:induction false} AllAreEach(x: Settings, d: Draft, all: seq<Series>)
    ensures AddAllSeries(x, d, all) == AddEach(Adding(x), d, all)
    decreases |all|
  {
    if all != [] { AllAreEach(x, AddSeries(x, d, all[0]), all[1..]); }
  }

  lemma Joined<T>(a: seq<T>, b: seq<T>, c: seq<T>)
    ensures a + b + c == a + (b + c)
  {
  }

  ghost predicate AddsChange(add: Adder, change: string -> Option<real>, s: Series) {
    forall d :: CloseChanges(add(d, s).metrics) == CloseChanges(d.metrics) + One(change(s.id))
  }

  lemma {:induction false} EachAddsChange(add: Adder, d: Draft, change: string -> Option<real>, all: seq<Series>)
    requires forall s :: s in all ==> AddsChange(add, change, s)
    ensures CloseChanges(AddEach(add, d, all).metrics) == CloseChanges(d.metrics) + Moves(change, Ids(all))
    decreases |all|
  {
    if all != [] {
      var next := add(d, all[0]);
      assert AddsChange(add, change, all[0]) && forall s :: s in all[1..] ==> s in all;
      EachAddsChange(add, next, change, all[1..]);
      MovesNext(change, all);
      Joined(CloseChanges(d.metrics), One(change(all[0].id)), Moves(change, Ids(all[1..])));
      assert AddEach(add, d, all) == AddEach(add, next, all[1..]);
    }
  }

  lemma AddAllSeriesChanges(x: Settings, d: Draft, change: string -> Option<real>, all: seq<Series>)
    requires Agree(x, change, all)
    ensures CloseChanges(AddAllSeries(x, d, all).metrics) == CloseChanges(d.metrics) + Moves(change, Ids(all))
  {
    forall s | s in all ensures AddsChange(Adding(x), change, s) {
      forall d ensures CloseChanges(AddSeries(x, d, s).metrics) == CloseChanges(d.metrics) + One(change(s.id)) {
        AddSeriesChange(x, d, s);
      }
    }
    EachAddsChange(Adding(x), d, change, all);
    AllAreEach(x, d, all);
  }

  lemma MovesNext(change: string -> Option<real>, all: seq<Series>)
    requires all != []
    ensures Moves(change, Ids(all)) == One(change(all[0].id)) + Moves(change, Ids(all[1..]))
  {
    assert Ids(all)[1..] == Ids(all[1..]);
  }

  lemma HeldAgree(x: Settings, records: seq<SourceRecord>, all: seq<Series>)
    requires Readable(x) && SeriesHold(x, records, all)
    ensures Agree(x, SeriesChange(x, records), all)
  {
  }

  // ---- the series of a report ----

  predicate HasId(all: seq<Series>, id: string) { exists k :: 0 <= k < |all| && all[k].id == id }

  /** Each ID once, and every ID that has records. */
  ghost predicate Complete(x: Settings, records: seq<SourceRecord>, all: seq<Series>) {
    && SeriesHold(x, records, all) && Distinct(Ids(all))
    && forall id :: RecordsOf(x, id, records) != [] ==> HasId(all, id)
  }

  lemma RecordsNext(x: Settings, id: string, records: seq<SourceRecord>, r: SourceRecord)
    ensures RecordsOf(x, id, records + [r]) == RecordsOf(x, id, records) + if InSeries(x, id, r) then [r] else []
  {
    assert (records + [r])[..|records|] == records;
  }

  lemma {:induction false} PlaceAbsent(all: seq<Series>, id: string, k: nat)
    requires SeriesPlace(all, id) == |all| && k < |all|
    ensures all[k].id != id
    decreases |all|
  {
    if k > 0 { PlaceAbsent(all[1..], id, k - 1); }
  }

  lemma NewSeries(x: Settings, before: seq<SourceRecord>, r: SourceRecord, all: seq<Series>, id: string)
    requires Complete(x, before, all) && InSeries(x, id, r) && !HasId(all, id)
    ensures Complete(x, before + [r], all + [Series(id, [r])])
  {
    var after := all + [Series(id, [r])];
    NewHolds(x, before, r, all, id);
    assert Ids(after) == Ids(all) + [id];
    forall other | RecordsOf(x, other, before + [r]) != [] ensures HasId(after, other) {
      RecordsNext(x, other, before, r);
      if other == id { assert after[|all|].id == id; } else { StillThere(all, Series(id, [r]), other); }
    }
  }

  lemma NewHolds(x: Settings, before: seq<SourceRecord>, r: SourceRecord, all: seq<Series>, id: string)
    requires Complete(x, before, all) && InSeries(x, id, r) && !HasId(all, id)
    ensures SeriesHold(x, before + [r], all + [Series(id, [r])])
  {
    forall s | s in all + [Series(id, [r])] ensures s.records == RecordsOf(x, s.id, before + [r]) && s.records != [] {
      RecordsNext(x, s.id, before, r);
      if s in all { var k :| 0 <= k < |all| && all[k] == s; }
    }
  }

  lemma StillThere(all: seq<Series>, s: Series, id: string)
    requires HasId(all, id)
    ensures HasId(all + [s], id)
  {
    var k :| 0 <= k < |all| && all[k].id == id;
    assert (all + [s])[k].id == id;
  }

  lemma OldSeries(x: Settings, before: seq<SourceRecord>, r: SourceRecord, all: seq<Series>, i: nat)
    requires Complete(x, before, all) && i < |all| && InSeries(x, all[i].id, r)
    ensures Complete(x, before + [r], all[i := Series(all[i].id, all[i].records + [r])])
  {
    var after := all[i := Series(all[i].id, all[i].records + [r])];
    forall other ensures RecordsOf(x, other, before + [r]) == RecordsOf(x, other, before) + if InSeries(x, other, r) then [r] else [] {
      RecordsNext(x, other, before, r);
    }
    assert Ids(after) == Ids(all);
    forall s | s in after ensures s.records == RecordsOf(x, s.id, before + [r]) && s.records != [] {
      var k :| 0 <= k < |after| && after[k] == s;
      assert all[k] in all;
      if k != i { assert Ids(all)[k] != Ids(all)[i]; }
    }
    forall other | RecordsOf(x, other, before + [r]) != [] ensures HasId(after, other) {
      if InSeries(x, other, r) { assert after[i].id == other; }
      else {
        var k :| 0 <= k < |all| && all[k].id == other;
        assert after[k].id == other;
      }
    }
  }

  lemma {:induction false} SeriesComplete(x: Settings, records: seq<SourceRecord>)
    ensures Complete(x, records, SeriesOf(x, records))
    decreases |records|
  {
    if records != [] {
      var rest, r := records[..|records| - 1], records[|records| - 1];
      SeriesComplete(x, rest);
      assert records == rest + [r];
      var all := SeriesOf(x, rest);
      if x.point(r).None? {
        forall id ensures RecordsOf(x, id, records) == RecordsOf(x, id, rest) { RecordsNext(x, id, rest, r); }
      } else {
        var id := x.point(r).value.series;
        if SeriesPlace(all, id) == |all| {
          forall k | 0 <= k < |all| ensures all[k].id != id { PlaceAbsent(all, id, k); }
          NewSeries(x, rest, r, all, id);
        } else {
          OldSeries(x, rest, r, all, SeriesPlace(all, id));
        }
      }
    }
  }

  // ---- their order ----

  predicate Increasing(ids: seq<string>) { forall i, j :: 0 <= i < j < |ids| ==> StringLess(ids[i], ids[j]) }

  lemma {:induction false} IncreasingUnique(a: seq<string>, b: seq<string>)
    requires Increasing(a) && Increasing(b) && forall id :: id in a <==> id in b
    ensures a == b
    decreases |a|
  {
    FirstIn(b);
    if a != [] {
      assert a[|a| - 1] in b && b != [];
      assert b[|b| - 1] in a;
      SameTop(a, b);
      var c, d := a[..|a| - 1], b[..|b| - 1];
      forall id ensures id in c <==> id in d {
        WithoutTop(a, id);
        WithoutTop(b, id);
      }
      IncreasingUnique(c, d);
    }
  }

  lemma FirstIn(a: seq<string>)
    ensures a == [] || a[0] in a
  {
  }

  lemma SameTop(a: seq<string>, b: seq<string>)
    requires Increasing(a) && Increasing(b) && a != [] && b != [] && a[|a| - 1] in b && b[|b| - 1] in a
    ensures a[|a| - 1] == b[|b| - 1]
  {
    var i :| 0 <= i < |b| && b[i] == a[|a| - 1];
    var j :| 0 <= j < |a| && a[j] == b[|b| - 1];
    StringLessTotal(a[|a| - 1], b[|b| - 1]);
  }

  lemma WithoutTop(a: seq<string>, id: string)
    requires Increasing(a) && a != []
    ensures id in a[..|a| - 1] <==> id in a && id != a[|a| - 1]
  {
    if id in a[..|a| - 1] {
      var i :| 0 <= i < |a| - 1 && a[i] == id;
      StringLessTotal(a[i], a[|a| - 1]);
    }
  }

  function Sorted(x: Settings, records: seq<SourceRecord>): seq<Series> { SortBy(BySeries, SeriesOf(x, records)) }

  lemma SortedDistinct(all: seq<Series>)
    requires Distinct(Ids(all))
    ensures Distinct(Ids(SortBy(BySeries, all)))
  {
    var sorted := SortBy(BySeries, all);
    SameMembers(sorted, all);
    forall id ensures id in Ids(sorted) <==> id in Ids(all) {
      IdListed(sorted, id);
      IdListed(all, id);
    }
    assert ToSet(Ids(sorted)) == ToSet(Ids(all));
    DistinctSize(Ids(sorted));
    DistinctSize(Ids(all));
  }

  lemma IdListed(all: seq<Series>, id: string)
    ensures id in Ids(all) <==> exists s :: s in all && s.id == id
  {
    if id in Ids(all) {
      var k :| 0 <= k < |all| && Ids(all)[k] == id;
      assert all[k] in all;
    }
    if s :| s in all && s.id == id {
      var k :| 0 <= k < |all| && all[k] == s;
      assert Ids(all)[k] == id;
    }
  }

  lemma BySeriesWeak()
    ensures WeakOrder(BySeries)
  {
    StringLessWeak();
  }

  /** The series in the order of the report: by ID, each once, and exactly those with records. */
  lemma SortedSeries(x: Settings, records: seq<SourceRecord>)
    ensures SeriesHold(x, records, Sorted(x, records)) && Increasing(Ids(Sorted(x, records)))
    ensures forall id :: id in Ids(Sorted(x, records)) <==> RecordsOf(x, id, records) != []
  {
    var all, sorted := SeriesOf(x, records), Sorted(x, records);
    SeriesComplete(x, records);
    SameMembers(sorted, all);
    SortedDistinct(all);
    BySeriesWeak();
    SortOrdered(BySeries, all);
    forall i, j | 0 <= i < j < |sorted| ensures StringLess(Ids(sorted)[i], Ids(sorted)[j]) {
      assert !BySeries(sorted[j], sorted[i]) && Ids(sorted)[i] != Ids(sorted)[j];
      StringLessTotal(sorted[i].id, sorted[j].id);
    }
    forall id ensures id in Ids(sorted) <==> RecordsOf(x, id, records) != [] {
      IdListed(sorted, id);
      if RecordsOf(x, id, records) != [] {
        var k :| 0 <= k < |all| && all[k].id == id;
        assert all[k] in sorted;
      }
    }
  }

  /** The EIA changes of a report are the changes of its series, by ID. */
  lemma ComposedChanges(
    x: Settings, reportDate: int, cutoff: Time, available: seq<SourceRecord>, events: seq<Event>, kept: seq<Observation>)
    requires Readable(x)
    ensures CloseChanges(Compose(x, reportDate, cutoff, available, events, kept).metrics)
      == Moves(SeriesChange(x, available), Ids(Sorted(x, available)))
  {
    var d1 := AddEvents(x, cutoff, Index(available), EmptyDraft, SortBy(ByEventId, events));
    QuoteMetrics.AddEventsMetrics(x, cutoff, Index(available), EmptyDraft, SortBy(ByEventId, events));
    AddObservationsChanges(x, d1, [], kept);
    var (d2, groups) := AddObservations(x, d1, [], kept);
    AddGroupsChanges(x, reportDate, d2, SortBy(ByKey, groups));
    SortedSeries(x, available);
    HeldAgree(x, available, Sorted(x, available));
    AddAllSeriesChanges(x, AddGroups(x, reportDate, d2, SortBy(ByKey, groups)), SeriesChange(x, available), Sorted(x, available));
  }

  // ---- the same records in another order ----

  lemma {:induction false} CountOnce(s: seq<SourceRecord>, r: SourceRecord)
    requires OnePerFamily(s)
    ensures multiset(s)[r] == if r in s then 1 else 0
  {
    if r in s {
      var i :| 0 <= i < |s| && s[i] == r;
      assert s == s[..i] + [r] + s[i + 1..];
      assert r !in s[..i] && r !in s[i + 1..];
    }
  }

  /** The newest of its family. */
  predicate NewestOf(records: seq<SourceRecord>, a: SourceRecord) {
    a in records && forall r :: r in records && FamilyOf(r) == FamilyOf(a) ==> r.revision <= a.revision
  }

  lemma LatestAreNewest(records: seq<SourceRecord>, a: SourceRecord)
    requires Indexable(records)
    ensures a in Latest(records) <==> NewestOf(records, a)
  {
    LatestIsNewest(records);
    var latest := Latest(records);
    if a in latest {
      forall r | r in records && FamilyOf(r) == FamilyOf(a) ensures r.revision <= a.revision {
        assert Covers(latest, r);
        OnlyOne(latest, a, r);
      }
    }
    if NewestOf(records, a) {
      assert Covers(latest, a);
      var b :| b in latest && FamilyOf(b) == FamilyOf(a) && b.revision >= a.revision;
      assert !Clash(a, b);
    }
  }

  lemma OnlyOne(latest: seq<SourceRecord>, a: SourceRecord, r: SourceRecord)
    requires OnePerFamily(latest) && a in latest && Covers(latest, r) && FamilyOf(r) == FamilyOf(a)
    ensures r.revision <= a.revision
  {
    var b :| b in latest && FamilyOf(b) == FamilyOf(r) && b.revision >= r.revision;
    var i :| 0 <= i < |latest| && latest[i] == a;
    var j :| 0 <= j < |latest| && latest[j] == b;
    assert i == j;
  }

  lemma LatestPermutes(s: seq<SourceRecord>, t: seq<SourceRecord>)
    requires Indexable(s) && multiset(s) == multiset(t)
    ensures Indexable(t) && multiset(Latest(s)) == multiset(Latest(t))
  {
    SameMembers(s, t);
    LatestIsNewest(s);
    LatestIsNewest(t);
    forall a ensures multiset(Latest(s))[a] == multiset(Latest(t))[a] {
      LatestAreNewest(s, a);
      LatestAreNewest(t, a);
      CountOnce(Latest(s), a);
      CountOnce(Latest(t), a);
    }
  }

  lemma AvailablePermutes(cutoff: Time, s: seq<SourceRecord>, t: seq<SourceRecord>)
    requires Indexable(s) && multiset(s) == multiset(t)
    ensures multiset(Available(cutoff, s)) == multiset(Available(cutoff, t)) && Indexable(Available(cutoff, s))
  {
    FilterPermutes(Known(cutoff), s, t);
    assert Indexable(Filter(Known(cutoff), s));
    LatestPermutes(Filter(Known(cutoff), s), Filter(Known(cutoff), t));
    LatestIsNewest(Filter(Known(cutoff), s));
    FilterPermutes((r: SourceRecord) => Usable(r, cutoff), Latest(Filter(Known(cutoff), s)), Latest(Filter(Known(cutoff), t)));
  }

  lemma {:induction false} IndexFiles(records: seq<SourceRecord>)
    requires Indexable(records)
    ensures Files(records, Index(records), KeyOf)
    decreases |records|
  {
    if records != [] {
      var rest, r := records[..|records| - 1], records[|records| - 1];
      PrefixIndexable(records, |records| - 1);
      IndexFiles(rest);
      assert records == rest + [r];
      if KeyOf(r) in Index(rest) { assert !Clash(Index(rest)[KeyOf(r)], r); }
      FilesOne(rest, Index(rest), KeyOf, r);
    }
  }

  lemma IndexPermutes(s: seq<SourceRecord>, t: seq<SourceRecord>)
    requires Indexable(s) && multiset(s) == multiset(t)
    ensures Index(s) == Index(t)
  {
    SameMembers(s, t);
    IndexFiles(s);
    IndexFiles(t);
  }

  /** The EIA changes of the report built of a request, if one is built. */
  function Reported(x: Settings, q: Request, now: Time): Option<seq<Option<real>>> {
    if Build(x, q, now).Ok? then Some(CloseChanges(Build(x, q, now).value.metrics)) else None
  }

  lemma BuiltOf(x: Settings, q: Request, now: Time)
    requires Build(x, q, now).Ok? && Readable(x)
    ensures Reported(x, q, now)
      == Some(Moves(SeriesChange(x, Available(q.cutoffAt, q.records)), Ids(Sorted(x, Available(q.cutoffAt, q.records)))))
  {
    QuoteMetrics.BuiltFrom(x, q, now);
    ComposedChanges(x, q.reportDate, q.cutoffAt, Available(q.cutoffAt, q.records),
                    Current(Filter(Assessed(q.cutoffAt), q.events)).value, Kept(QuoteMetrics.AcceptedOf(x, q)).value);
  }

  /** A report that is built is built for every order of its records. */
  lemma EveryOrderBuilds(x: Settings, q: Request, now: Time, rs: seq<SourceRecord>)
    requires Build(x, q, now).Ok? && multiset(rs) == multiset(q.records)
    ensures Build(x, q.(records := rs), now).Ok?
    ensures multiset(Available(q.cutoffAt, rs)) == multiset(Available(q.cutoffAt, q.records))
  {
    SameMembers(rs, q.records);
    AvailablePermutes(q.cutoffAt, q.records, rs);
    IndexPermutes(Available(q.cutoffAt, q.records), Available(q.cutoffAt, rs));
  }

  lemma {:induction false} MovesSame(change: string -> Option<real>, also: string -> Option<real>, ids: seq<string>)
    requires forall id :: id in ids ==> change(id) == also(id)
    ensures Moves(change, ids) == Moves(also, ids)
    decreases |ids|
  {
    if ids != [] {
      assert ids[0] in ids;
      MovesSame(change, also, ids[1..]);
    }
  }

  lemma SameIds(x: Settings, s: seq<SourceRecord>, t: seq<SourceRecord>)
    requires multiset(s) == multiset(t)
    ensures Ids(Sorted(x, s)) == Ids(Sorted(x, t))
  {
    SortedSeries(x, s);
    SortedSeries(x, t);
    forall id ensures RecordsOf(x, id, s) != [] <==> RecordsOf(x, id, t) != [] {
      FilterPermutes((r: SourceRecord) => InSeries(x, id, r), s, t);
    }
    IncreasingUnique(Ids(Sorted(x, s)), Ids(Sorted(x, t)));
  }

  /** No series of the report has unequal closes of one time and period that reach the last two places. */
  ghost predicate AllSettled(x: Settings, available: seq<SourceRecord>) { forall id :: Settled(x, RecordsOf(x, id, available)) }

  lemma SettledSameMoves(x: Settings, s: seq<SourceRecord>, t: seq<SourceRecord>)
    requires multiset(s) == multiset(t) && AllSettled(x, s)
    ensures Moves(SeriesChange(x, s), Ids(Sorted(x, s))) == Moves(SeriesChange(x, t), Ids(Sorted(x, t)))
  {
    SameIds(x, s, t);
    forall id ensures SeriesChange(x, s)(id) == SeriesChange(x, t)(id) {
      FilterPermutes((r: SourceRecord) => InSeries(x, id, r), s, t);
      SettledSameChange(x, RecordsOf(x, id, s), RecordsOf(x, id, t));
    }
    MovesSame(SeriesChange(x, s), SeriesChange(x, t), Ids(Sorted(x, s)));
  }

  // ---- an order that makes a difference ----

  lemma {:induction false} MovesDiffer(
    change: string -> Option<real>, also: string -> Option<real>, ids: seq<string>, id: string)
    requires Increasing(ids) && id in ids && change(id) != also(id) && forall other :: other != id ==> change(other) == also(other)
    ensures Moves(change, ids) != Moves(also, ids)
    decreases |ids|
  {
    var rest := ids[1..];
    if ids[0] == id {
      forall other | other in rest ensures other != id {
        var k :| 0 <= k < |rest| && rest[k] == other;
        StringLessTotal(ids[0], ids[k + 1]);
      }
      MovesSame(change, also, rest);
      HeadsDiffer(change(id), also(id), Moves(change, rest));
    } else {
      MovesDiffer(change, also, rest, id);
      TailsDiffer(One(change(ids[0])), Moves(change, rest), Moves(also, rest));
    }
  }

  lemma HeadsDiffer(a: Option<real>, b: Option<real>, rest: seq<Option<real>>)
    requires a != b
    ensures One(a) + rest != One(b) + rest
  {
    if a.Some? && b.Some? { assert (One(a) + rest)[0] != (One(b) + rest)[0]; }
    if a.Some? != b.Some? { assert |One(a) + rest| != |One(b) + rest|; }
  }

  lemma TailsDiffer<T>(head: seq<T>, a: seq<T>, b: seq<T>)
    requires a != b
    ensures head + a != head + b
  {
    assert (head + a)[|head|..] == a && (head + b)[|head|..] == b;
  }

  lemma Twice<T>(s: seq<T>, i: nat, j: nat)
    requires i < j < |s| && s[i] == s[j]
    ensures multiset(s)[s[i]] >= 2
  {
    assert s == s[..i] + [s[i]] + s[i + 1..j] + [s[j]] + s[j + 1..];
  }

  lemma FamiliesPermute(s: seq<SourceRecord>, t: seq<SourceRecord>)
    requires OnePerFamily(s) && multiset(s) == multiset(t)
    ensures OnePerFamily(t)
  {
    SameMembers(s, t);
    forall i, j | 0 <= i < j < |t| ensures FamilyOf(t[i]) != FamilyOf(t[j]) {
      assert t[i] in s && t[j] in s;
      CountOnce(s, t[i]);
      if t[i] == t[j] { Twice(t, i, j); } else { FamiliesDiffer(s, t[i], t[j]); }
    }
  }

  lemma FamiliesDiffer(s: seq<SourceRecord>, a: SourceRecord, b: SourceRecord)
    requires OnePerFamily(s) && a in s && b in s && a != b
    ensures FamilyOf(a) != FamilyOf(b)
  {
    var i :| 0 <= i < |s| && s[i] == a;
    var j :| 0 <= j < |s| && s[j] == b;
    assert if i < j then FamilyOf(s[i]) != FamilyOf(s[j]) else FamilyOf(s[j]) != FamilyOf(s[i]);
  }

  lemma {:induction false} LatestWhole(s: seq<SourceRecord>)
    requires OnePerFamily(s)
    ensures Latest(s) == s
    decreases |s|
  {
    if s != [] {
      LatestWhole(s[..|s| - 1]);
      assert Place(s[..|s| - 1], FamilyOf(s[|s| - 1])) == |s| - 1;
    }
  }

  /** What is covered changes nothing any more. */
  lemma {:induction false} LatestStays(front: seq<SourceRecord>, rest: seq<SourceRecord>)
    requires OnePerFamily(front) && forall r :: r in rest ==> Covers(front, r)
    ensures Latest(front + rest) == front
    decreases |rest|
  {
    if rest == [] {
      assert front + rest == front;
      LatestWhole(front);
    } else {
      var r := rest[|rest| - 1];
      assert r in rest && forall q :: q in rest[..|rest| - 1] ==> q in rest;
      LatestStays(front, rest[..|rest| - 1]);
      assert (front + rest)[..|front + rest| - 1] == front + rest[..|rest| - 1];
      AdmitNothing(front, r);
    }
  }

  lemma AdmitNothing(front: seq<SourceRecord>, r: SourceRecord)
    requires OnePerFamily(front) && Covers(front, r)
    ensures Admit(front, r) == front
  {
    var a :| a in front && FamilyOf(a) == FamilyOf(r) && a.revision >= r.revision;
    var k :| 0 <= k < |front| && front[k] == a;
    assert Place(front, FamilyOf(r)) == k;
  }

  lemma {:induction false} AsSequence<T>(m: multiset<T>) returns (s: seq<T>)
    ensures multiset(s) == m
    decreases m
  {
    if m == multiset{} {
      s := [];
    } else {
      var v :| v in m;
      s := AsSequence(m - multiset{v});
      s := s + [v];
    }
  }

  lemma {:induction false} DistinctWithin(front: seq<SourceRecord>, records: seq<SourceRecord>)
    requires OnePerFamily(front) && forall r :: r in front ==> r in records
    ensures multiset(front) <= multiset(records)
  {
    forall r ensures multiset(front)[r] <= multiset(records)[r] {
      CountOnce(front, r);
      if r in front { assert r in multiset(records); }
    }
  }

  /** Any order of the latest revisions comes about by some order of the records. */
  lemma Rearranged(cutoff: Time, records: seq<SourceRecord>, front: seq<SourceRecord>) returns (rs: seq<SourceRecord>)
    requires multiset(front) == multiset(Latest(Filter(Known(cutoff), records)))
    ensures multiset(rs) == multiset(records) && Available(cutoff, rs) == Filter((r: SourceRecord) => Usable(r, cutoff), front)
  {
    var known := Filter(Known(cutoff), records);
    LatestIsNewest(known);
    SameMembers(front, Latest(known));
    FamiliesPermute(Latest(known), front);
    DistinctWithin(front, records);
    var rest := AsSequence(multiset(records) - multiset(front));
    rs := front + rest;
    FilterJoin(Known(cutoff), front, rest);
    FilterAll(Known(cutoff), front);
    forall r | r in Filter(Known(cutoff), rest) ensures Covers(front, r) {
      assert r in multiset(rest) && r in records && r in known;
      StillCovers(Latest(known), front, r);
    }
    LatestStays(front, Filter(Known(cutoff), rest));
  }

  lemma StillCovers(s: seq<SourceRecord>, t: seq<SourceRecord>, r: SourceRecord)
    requires Covers(s, r) && forall a :: a in s ==> a in t
    ensures Covers(t, r)
  {
    var a :| a in s && FamilyOf(a) == FamilyOf(r) && a.revision >= r.revision;
    assert a in t;
  }

  /** Two orders of the records whose series end with the two contested closes in turn. */
  lemma Exchanged(x: Settings, cutoff: Time, records: seq<SourceRecord>, id: string, a: SourceRecord, b: SourceRecord)
    returns (rs: seq<SourceRecord>, ts: seq<SourceRecord>, u: seq<SourceRecord>)
    requires a in Available(cutoff, records) && b in Available(cutoff, records) && a != b
    ensures multiset(rs) == multiset(records) && multiset(ts) == multiset(records)
    ensures Available(cutoff, rs) == u + [a, b] && Available(cutoff, ts) == u + [b, a]
  {
    var m := Apart(Latest(Filter(Known(cutoff), records)), a, b);
    var usable := (r: SourceRecord) => Usable(r, cutoff);
    u := Filter(usable, m);
    rs := Rearranged(cutoff, records, m + [a, b]);
    ts := Rearranged(cutoff, records, m + [b, a]);
    FilterJoin(usable, m, [a, b]);
    FilterJoin(usable, m, [b, a]);
    FilterAll(usable, [a, b]);
    FilterAll(usable, [b, a]);
  }

  lemma RecordsEnd(x: Settings, id: string, u: seq<SourceRecord>, a: SourceRecord, b: SourceRecord)
    requires InSeries(x, id, a) && InSeries(x, id, b)
    ensures RecordsOf(x, id, u + [a, b]) == RecordsOf(x, id, u) + [a, b]
    ensures forall other :: other != id ==> RecordsOf(x, other, u + [a, b]) == RecordsOf(x, other, u)
  {
    FilterJoin((r: SourceRecord) => InSeries(x, id, r), u, [a, b]);
    FilterAll((r: SourceRecord) => InSeries(x, id, r), [a, b]);
    forall other | other != id ensures RecordsOf(x, other, u + [a, b]) == RecordsOf(x, other, u) {
      FilterJoin((r: SourceRecord) => InSeries(x, other, r), u, [a, b]);
      FilterNone((r: SourceRecord) => InSeries(x, other, r), [a, b]);
    }
  }

  lemma ExchangedMoves(x: Settings, id: string, u: seq<SourceRecord>, a: SourceRecord, b: SourceRecord)
    requires Contested(x, ClosesOf(x, RecordsOf(x, id, u + [a, b])), a, b) && InSeries(x, id, a) && InSeries(x, id, b)
    ensures Moves(SeriesChange(x, u + [a, b]), Ids(Sorted(x, u + [a, b]))) != Moves(SeriesChange(x, u + [b, a]), Ids(Sorted(x, u + [b, a])))
  {
    var s, t := u + [a, b], u + [b, a];
    RecordsEnd(x, id, u, a, b);
    RecordsEnd(x, id, u, b, a);
    ExchangeMatters(x, RecordsOf(x, id, u), a, b);
    AndTwo(u, a, b);
    SameIds(x, s, t);
    SortedSeries(x, s);
    MovesDiffer(SeriesChange(x, s), SeriesChange(x, t), Ids(Sorted(x, s)), id);
  }

  /** Main result: the EIA changes of a report that is built are the same for every order of its source records exactly
      when, among the usable latest revisions, no series has two unequal closes of one time and period with fewer than two
      later closes. */
  lemma RecordOrderMattersIffContested(x: Settings, q: Request, now: Time)
    requires Build(x, q, now).Ok? && Readable(x)
    ensures AllSettled(x, Available(q.cutoffAt, q.records)) <==>
              forall rs: seq<SourceRecord> ::
                multiset(rs) == multiset(q.records) ==> Reported(x, q.(records := rs), now) == Reported(x, q, now)
  {
    if AllSettled(x, Available(q.cutoffAt, q.records)) {
      forall rs: seq<SourceRecord> | multiset(rs) == multiset(q.records)
        ensures Reported(x, q.(records := rs), now) == Reported(x, q, now)
      {
        SettledSameReport(x, q, now, rs);
      }
    } else {
      var rs, ts := DifferentReports(x, q, now);
      assert Reported(x, q.(records := rs), now) != Reported(x, q, now) || Reported(x, q.(records := ts), now) != Reported(x, q, now);
    }
  }

  lemma SettledSameReport(x: Settings, q: Request, now: Time, rs: seq<SourceRecord>)
    requires Build(x, q, now).Ok? && Readable(x) && multiset(rs) == multiset(q.records)
    requires AllSettled(x, Available(q.cutoffAt, q.records))
    ensures Reported(x, q.(records := rs), now) == Reported(x, q, now)
  {
    EveryOrderBuilds(x, q, now, rs);
    BuiltOf(x, q, now);
    BuiltOf(x, q.(records := rs), now);
    SettledSameMoves(x, Available(q.cutoffAt, q.records), Available(q.cutoffAt, rs));
  }

  lemma DifferentReports(x: Settings, q: Request, now: Time) returns (rs: seq<SourceRecord>, ts: seq<SourceRecord>)
    requires Build(x, q, now).Ok? && Readable(x) && !AllSettled(x, Available(q.cutoffAt, q.records))
    ensures multiset(rs) == multiset(q.records) && multiset(ts) == multiset(q.records)
    ensures Reported(x, q.(records := rs), now) != Reported(x, q.(records := ts), now)
  {
    var id, a, b := ContestedSomewhere(x, Available(q.cutoffAt, q.records));
    var u;
    rs, ts, u := Exchanged(x, q.cutoffAt, q.records, id, a, b);
    EveryOrderBuilds(x, q, now, rs);
    EveryOrderBuilds(x, q, now, ts);
    BuiltOf(x, q.(records := rs), now);
    BuiltOf(x, q.(records := ts), now);
    ContestedElsewhere(x, id, Available(q.cutoffAt, q.records), u + [a, b], a, b);
    ExchangedMoves(x, id, u, a, b);
  }

  lemma ContestedSomewhere(x: Settings, available: seq<SourceRecord>) returns (id: string, a: SourceRecord, b: SourceRecord)
    requires !AllSettled(x, available)
    ensures Contested(x, ClosesOf(x, RecordsOf(x, id, available)), a, b) && InSeries(x, id, a) && InSeries(x, id, b)
    ensures a in available && b in available && a != b
  {
    id :| !Settled(x, RecordsOf(x, id, available));
    a, b :| Contested(x, ClosesOf(x, RecordsOf(x, id, available)), a, b);
  }

  lemma ContestedElsewhere(x: Settings, id: string, s: seq<SourceRecord>, t: seq<SourceRecord>, a: SourceRecord, b: SourceRecord)
    requires multiset(s) == multiset(t) && Contested(x, ClosesOf(x, RecordsOf(x, id, s)), a, b)
    ensures Contested(x, ClosesOf(x, RecordsOf(x, id, t)), a, b)
  {
    FilterPermutes((r: SourceRecord) => InSeries(x, id, r), s, t);
    ContestedPermutes(x, RecordsOf(x, id, s), RecordsOf(x, id, t), a, b);
  }
}
