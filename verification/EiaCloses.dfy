module EiaCloses {
  /** What the daily change of an EIA series is (`intelligence/price_alert.py`). */

  import opened Common
  import opened Contracts
  import opened Revisions
  import opened ReportDraft

  lemma CloseLessWeak(x: Settings)
    ensures WeakOrder(ByClose(x))
  {
    StringLessWeak();
    var less := ByClose(x);
    forall a, b: SourceRecord ensures less(a, b) ==> !less(b, a) {
      assert StringLess(Period(x, a), Period(x, b)) ==> !StringLess(Period(x, b), Period(x, a));
    }
    forall a, b, c: SourceRecord | less(a, c) ensures less(a, b) || less(b, c) {
      if StringLess(Period(x, a), Period(x, c)) {
        assert StringLess(Period(x, a), Period(x, b)) || StringLess(Period(x, b), Period(x, c));
      }
    }
  }

  type Order = (SourceRecord, SourceRecord) -> bool

  /** No close is later. */
  predicate Newest(less: Order, closes: seq<SourceRecord>, r: SourceRecord) {
    r in closes && forall c :: c in closes ==> !less(r, c)
  }

  /** The close of the nearest strictly earlier time and period. */
  predicate NearestBefore(less: Order, closes: seq<SourceRecord>, latest: SourceRecord, p: SourceRecord) {
    p in closes && less(p, latest) && forall c :: c in closes && less(c, latest) ==> !less(p, c)
  }

  /** Two of the closes share the latest time and period. */
  predicate Tied(less: Order, closes: seq<SourceRecord>, latest: SourceRecord) {
    exists i, j :: 0 <= i < j < |closes| && !less(closes[i], latest) && !less(closes[j], latest)
  }

  // ---- the last two places ----

  /** Place `k` comes before place `m` when the closes are sorted: it is earlier, or as late and first in the input. */
  predicate Before(less: Order, closes: seq<SourceRecord>, k: nat, m: nat)
    requires k < |closes| && m < |closes|
  {
    less(closes[k], closes[m]) || (!less(closes[m], closes[k]) && k < m)
  }

  /** Two different places, behind all others: `j` last and `i` next to last. */
  predicate LastPlaces(less: Order, closes: seq<SourceRecord>, i: nat, j: nat) {
    && i < |closes| && j < |closes| && i != j
    && (forall k :: 0 <= k < |closes| && k != j ==> Before(less, closes, k, j))
    && forall k :: 0 <= k < |closes| && k != i && k != j ==> Before(less, closes, k, i)
  }

  lemma LastPlacesUnique(less: Order, closes: seq<SourceRecord>, i: nat, j: nat, i': nat, j': nat)
    requires WeakOrder(less) && LastPlaces(less, closes, i, j) && LastPlaces(less, closes, i', j')
    ensures i == i' && j == j'
  {
    assert j != j' ==> Before(less, closes, j', j) && Before(less, closes, j, j');
    assert i != i' && j == j' ==> Before(less, closes, i', i) && Before(less, closes, i, i');
  }

  /** What inserting one more does to the end of a sorted sequence. */
  lemma {:induction false} InsertAtEnd(less: Order, r: SourceRecord, s: seq<SourceRecord>)
    requires WeakOrder(less) && OrderedBy(less, s) && |s| >= 2
    ensures var n, t := |s|, InsertBy(less, r, s);
            && |t| == n + 1
            && t[n] == (if less(s[n - 1], r) then r else s[n - 1])
            && t[n - 1] == if less(s[n - 1], r) then s[n - 1] else if less(s[n - 2], r) then r else s[n - 2]
  {
    var n := |s|;
    SameMembers(InsertBy(less, r, s), s + [r]);
    if less(s[0], r) {
      if n > 2 { InsertAtEnd(less, r, s[1..]); } else { InsertNearEnd(less, r, s); }
    } else {
      assert !less(s[n - 1], r);
      if n > 2 { assert !less(s[n - 2], r); }
    }
  }

  lemma InsertEnds(less: Order, r: SourceRecord, s: seq<SourceRecord>, p: SourceRecord, l: SourceRecord)
    requires WeakOrder(less) && OrderedBy(less, s) && |s| >= 2 && s[|s| - 2] == p && s[|s| - 1] == l
    ensures var t := InsertBy(less, r, s);
            && |t| == |s| + 1 && t[|t| - 1] == (if less(l, r) then r else l)
            && t[|t| - 2] == if less(l, r) then l else if less(p, r) then r else p
  {
    InsertAtEnd(less, r, s);
  }

  lemma InsertNearEnd(less: Order, r: SourceRecord, s: seq<SourceRecord>)
    requires |s| == 2 && less(s[0], r)
    ensures InsertBy(less, r, s) == if less(s[1], r) then [s[0], s[1], r] else [s[0], r, s[1]]
  {
    InsertOne(less, r, s[1]);
    assert s[1..] == [s[1]] && s == [s[0], s[1]];
  }

  lemma InsertOne(less: Order, r: SourceRecord, a: SourceRecord)
    ensures InsertBy(less, r, [a]) == if less(a, r) then [a, r] else [r, a]
  {
    assert [a][1..] == [];
  }

  /** The end of a sorted sequence, by places of the input. */
  ghost predicate EndsAt(less: Order, closes: seq<SourceRecord>, sorted: seq<SourceRecord>, i: nat, j: nat) {
    && LastPlaces(less, closes, i, j) && |sorted| == |closes| >= 2
    && sorted[|sorted| - 2] == closes[i] && sorted[|sorted| - 1] == closes[j]
  }

  /** One more in front of the input: where the last two places are then. */
  lemma PlacesAfter(less: Order, r: SourceRecord, rest: seq<SourceRecord>, i: nat, j: nat) returns (i': nat, j': nat)
    requires WeakOrder(less) && LastPlaces(less, rest, i, j)
    ensures LastPlaces(less, [r] + rest, i', j')
    ensures i' == (if less(rest[j], r) then j + 1 else if less(rest[i], r) then 0 else i + 1)
    ensures j' == if less(rest[j], r) then 0 else j + 1
  {
    var all := [r] + rest;
    i', j' := i + 1, j + 1;
    if less(rest[j], r) { i', j' := j + 1, 0; } else if less(rest[i], r) { i' := 0; }
    forall k | 0 <= k < |all| && k != j' ensures Before(less, all, k, j') {
      if k > 0 && k - 1 != j { assert Before(less, rest, k - 1, j); }
    }
    forall k | 0 <= k < |all| && k != i' && k != j' ensures Before(less, all, k, i') {
      if k > 0 && k - 1 != j { assert Before(less, rest, k - 1, j); }
      if k > 0 && k - 1 != j && k - 1 != i { assert Before(less, rest, k - 1, i); }
    }
  }

  lemma OneMoreFirst(
    less: Order, r: SourceRecord, rest: seq<SourceRecord>, s: seq<SourceRecord>, t: seq<SourceRecord>, i: nat, j: nat)
    returns (i': nat, j': nat)
    requires WeakOrder(less) && OrderedBy(less, s) && EndsAt(less, rest, s, i, j) && t == InsertBy(less, r, s)
    ensures EndsAt(less, [r] + rest, t, i', j')
  {
    InsertEnds(less, r, s, rest[i], rest[j]);
    i', j' := PlacesAfter(less, r, rest, i, j);
  }

  lemma TwoFirst(less: Order, a: SourceRecord, b: SourceRecord) returns (i: nat, j: nat)
    requires WeakOrder(less)
    ensures EndsAt(less, [a, b], SortBy(less, [a, b]), i, j)
  {
    assert [a, b][1..] == [b] && [b][1..] == [];
    assert SortBy(less, [b]) == [b];
    if less(b, a) { i, j := 1, 0; } else { i, j := 0, 1; }
  }

  lemma SortEndsNext(less: Order, r: SourceRecord, rest: seq<SourceRecord>, i: nat, j: nat) returns (i': nat, j': nat)
    requires WeakOrder(less) && EndsAt(less, rest, SortBy(less, rest), i, j)
    ensures EndsAt(less, [r] + rest, SortBy(less, [r] + rest), i', j')
  {
    SortOrdered(less, rest);
    assert ([r] + rest)[1..] == rest;
    i', j' := OneMoreFirst(less, r, rest, SortBy(less, rest), SortBy(less, [r] + rest), i, j);
  }

  /** Sorting puts the closes of the two last places last. */
  lemma {:induction false} SortEnds(less: Order, closes: seq<SourceRecord>) returns (i: nat, j: nat)
    requires WeakOrder(less) && |closes| >= 2
    ensures EndsAt(less, closes, SortBy(less, closes), i, j)
    decreases |closes|
  {
    if |closes| == 2 {
      assert closes == [closes[0], closes[1]];
      i, j := TwoFirst(less, closes[0], closes[1]);
    } else {
      var rest := closes[1..];
      i, j := SortEnds(less, rest);
      i, j := SortEndsNext(less, closes[0], rest, i, j);
      assert [closes[0]] + rest == closes;
    }
  }

  /** What the two last places mean. */
  lemma LastPlacesMean(less: Order, closes: seq<SourceRecord>, i: nat, j: nat)
    requires WeakOrder(less) && LastPlaces(less, closes, i, j)
    ensures Newest(less, closes, closes[j])
    ensures if Tied(less, closes, closes[j]) then Newest(less, closes, closes[i]) else NearestBefore(less, closes, closes[j], closes[i])
  {
    var p, l := closes[i], closes[j];
    forall c | c in closes ensures !less(l, c) && (c == l || !less(p, c)) {
      var k :| 0 <= k < |closes| && closes[k] == c;
      if k != j { assert Before(less, closes, k, j); }
      if k != j && k != i { assert Before(less, closes, k, i); }
    }
    if Tied(less, closes, l) {
      var a, b :| 0 <= a < b < |closes| && !less(closes[a], l) && !less(closes[b], l);
      var k := if a == j then b else a;
      assert Before(less, closes, i, j);
      if k != i { assert Before(less, closes, k, i); }
    } else {
      var a, b := if i < j then i else j, if i < j then j else i;
      assert less(closes[a], l) || less(closes[b], l);
    }
  }

  /** The two compared closes stand at the two last places, and what that means. */
  ghost predicate Pair(x: Settings, closes: seq<SourceRecord>, pair: Option<(SourceRecord, SourceRecord)>, i: nat, j: nat) {
    && LastPlaces(ByClose(x), closes, i, j) && Newest(ByClose(x), closes, closes[j])
    && (if Tied(ByClose(x), closes, closes[j]) then Newest(ByClose(x), closes, closes[i])
        else NearestBefore(ByClose(x), closes, closes[j], closes[i]))
    && x.point(closes[i]).Some?
    && pair == if x.point(closes[i]).value.value == 0.0 then None else Some((closes[i], closes[j]))
  }

  /** Main result: when an EIA series shows a change, it is taken from the close of the nearest strictly earlier time and
      period, exactly unless two closes share the newest; then it is taken from another of those. Among equals, the last of
      the input counts. A series shows none exactly when it has fewer than two closes or the earlier one is zero. */
  lemma CloseChangeMeans(x: Settings, records: seq<SourceRecord>)
    ensures |ClosesOf(x, records)| < 2 ==> LastTwo(x, records).None?
    ensures |ClosesOf(x, records)| >= 2 ==> exists i: nat, j: nat :: Pair(x, ClosesOf(x, records), LastTwo(x, records), i, j)
  {
    var closes := ClosesOf(x, records);
    CloseLessWeak(x);
    SameMembers(SortBy(ByClose(x), closes), closes);
    if |closes| >= 2 {
      var i, j := SortEnds(ByClose(x), closes);
      LastPlacesMean(ByClose(x), closes, i, j);
      assert closes[i] in closes && Dated(x, closes[i]);
      assert Pair(x, closes, LastTwo(x, records), i, j);
    }
  }

  /** And only those places. */
  lemma PairIs(x: Settings, records: seq<SourceRecord>, i: nat, j: nat)
    requires LastPlaces(ByClose(x), ClosesOf(x, records), i, j)
    ensures Pair(x, ClosesOf(x, records), LastTwo(x, records), i, j)
  {
    CloseLessWeak(x);
    CloseChangeMeans(x, records);
    var i': nat, j': nat :| Pair(x, ClosesOf(x, records), LastTwo(x, records), i', j');
    LastPlacesUnique(ByClose(x), ClosesOf(x, records), i, j, i', j');
  }

  /** Two closes of one day, then: with nothing else, the change is taken between them. */
  lemma OneDayTwice(x: Settings, a: SourceRecord, b: SourceRecord)
    requires Dated(x, a) && Dated(x, b) && PublishedTime(a) == PublishedTime(b) && Period(x, a) == Period(x, b)
    requires x.point(a).value.value != 0.0
    ensures LastTwo(x, [a, b]) == Some((a, b))
  {
    FilterAll((r: SourceRecord) => Dated(x, r), [a, b]);
    CloseLessWeak(x);
    PairIs(x, [a, b], 0, 1);
  }

  // ---- which records are cited ----

  predicate LastAt(records: seq<SourceRecord>, r: SourceRecord, i: nat) {
    i < |records| && records[i] == r && forall j :: i < j < |records| ==> records[j].recordId != r.recordId
  }

  /** The last record of the series with its ID. */
  ghost predicate LastWithId(records: seq<SourceRecord>, r: SourceRecord) { exists i: nat :: LastAt(records, r, i) }

  lemma {:induction false} ByIdIsLast(records: seq<SourceRecord>, r: SourceRecord)
    requires r in records
    ensures ById(records, r.recordId).Some? && LastWithId(records, ById(records, r.recordId).value)
    decreases |records|
  {
    var rest, last := records[..|records| - 1], records[|records| - 1];
    if last.recordId == r.recordId {
      assert LastAt(records, last, |records| - 1);
    } else {
      ByIdIsLast(rest, r);
      var found := ById(rest, r.recordId).value;
      var i: nat :| LastAt(rest, found, i);
      assert LastAt(records, found, i);
    }
  }

  lemma OneLastWithId(records: seq<SourceRecord>, a: SourceRecord, b: SourceRecord)
    requires LastWithId(records, a) && LastWithId(records, b) && a.recordId == b.recordId
    ensures a == b
  {
  }

  lemma PairCloses(x: Settings, records: seq<SourceRecord>)
    requires LastTwo(x, records).Some?
    ensures var (p, l) := LastTwo(x, records).value; p in records && l in records && Dated(x, p) && Dated(x, l)
  {
    CloseChangeMeans(x, records);
    var i: nat, j: nat :| Pair(x, ClosesOf(x, records), LastTwo(x, records), i, j);
    assert ClosesOf(x, records)[i] in ClosesOf(x, records) && ClosesOf(x, records)[j] in ClosesOf(x, records);
  }

  /** What is shown of the change from `p` to `l` when `e` and `c` are cited for them: the newest close and the change, with
      the product and unit of what is cited; nothing unless both can be quoted. */
  function ShownFor(x: Settings, p: SourceRecord, l: SourceRecord, e: SourceRecord, c: SourceRecord): seq<Metric>
    requires Dated(x, p) && Dated(x, l)
  {
    var from, to := QuoteReference(e), QuoteReference(c);
    if from.None? || to.None? || x.point(c).None? then []
    else
      var (point, earlier, later) := (x.point(c).value, x.point(p).value, x.point(l).value);
      [Metric(EiaClose(point.product, later.period), Some(later.value), point.unit, PublishedTime(l), [to.value], ValidQuote),
       Metric(EiaChange(point.product), Some(later.value - earlier.value), point.unit, PublishedTime(l), [from.value, to.value], ValidQuote)]
  }

  ghost predicate Cites(x: Settings, records: seq<SourceRecord>, e: SourceRecord, c: SourceRecord, shown: seq<Metric>) {
    var pair := LastTwo(x, records);
    && pair.Some? && Dated(x, pair.value.0) && Dated(x, pair.value.1)
    && LastWithId(records, e) && e.recordId == pair.value.0.recordId
    && LastWithId(records, c) && c.recordId == pair.value.1.recordId
    && shown == ShownFor(x, pair.value.0, pair.value.1, e, c)
  }

  /** What a series adds to the metrics: nothing without a change, and otherwise the newest close and the change, citing
      for each of the two compared closes the last record of the series with its ID. */
  lemma SeriesShows(x: Settings, d: Draft, s: Series)
    ensures d.metrics <= AddSeries(x, d, s).metrics
    ensures var shown := AddSeries(x, d, s).metrics[|d.metrics|..];
            if LastTwo(x, s.records).None? then shown == [] else exists e, c :: Cites(x, s.records, e, c, shown)
  {
    SeriesAdds(x, d, s);
    if LastTwo(x, s.records).Some? {
      var (p, l) := LastTwo(x, s.records).value;
      PairCloses(x, s.records);
      ByIdIsLast(s.records, p);
      ByIdIsLast(s.records, l);
      var e, c := ById(s.records, p.recordId).value, ById(s.records, l.recordId).value;
      FoundIsShown(x, s.records, p, l, e, c);
      assert Cites(x, s.records, e, c, AddSeries(x, d, s).metrics[|d.metrics|..]);
    }
  }

  /** The two metrics of what is shown. */
  function TwoMetrics(shown: Option<Shown>): seq<Metric> {
    if shown.None? then []
    else
      var c := shown.value;
      [Metric(EiaClose(c.latest.product, c.later.period), Some(c.later.value), c.latest.unit, c.asOf, [c.to], ValidQuote),
       Metric(EiaChange(c.latest.product), Some(c.later.value - c.earlier.value), c.latest.unit, c.asOf, [c.from, c.to], ValidQuote)]
  }

  lemma SeriesAdds(x: Settings, d: Draft, s: Series)
    ensures AddSeries(x, d, s).metrics == d.metrics + TwoMetrics(ShownOf(x, s.records))
  {
    if ShownOf(x, s.records).Some? { ShownAdds(x, d, ShownOf(x, s.records).value); }
  }

  lemma FoundIsShown(x: Settings, records: seq<SourceRecord>, p: SourceRecord, l: SourceRecord, e: SourceRecord, c: SourceRecord)
    requires LastTwo(x, records) == Some((p, l)) && Dated(x, p) && Dated(x, l)
    requires ById(records, p.recordId) == Some(e) && ById(records, l.recordId) == Some(c)
    ensures TwoMetrics(ShownOf(x, records)) == ShownFor(x, p, l, e, c)
  {
    FoundIs(x, records, p, l, e, c);
    MetricsAre(x, ShownOf(x, records), p, l, e, c);
  }

  lemma MetricsAre(x: Settings, shown: Option<Shown>, p: SourceRecord, l: SourceRecord, e: SourceRecord, c: SourceRecord)
    requires Dated(x, p) && Dated(x, l)
    requires shown
      == if x.point(c).None? || QuoteReference(c).None? || QuoteReference(e).None? then None
         else Some(Shown(QuoteReference(e).value, QuoteReference(c).value, x.point(c).value, x.point(p).value, x.point(l).value,
                         PublishedTime(l)))
    ensures TwoMetrics(shown) == ShownFor(x, p, l, e, c)
  {
  }

  lemma FoundIs(x: Settings, records: seq<SourceRecord>, p: SourceRecord, l: SourceRecord, e: SourceRecord, c: SourceRecord)
    requires LastTwo(x, records) == Some((p, l)) && Dated(x, p) && Dated(x, l)
    requires ById(records, p.recordId) == Some(e) && ById(records, l.recordId) == Some(c)
    ensures ShownOf(x, records)
      == if x.point(c).None? || QuoteReference(c).None? || QuoteReference(e).None? then None
         else Some(Shown(QuoteReference(e).value, QuoteReference(c).value, x.point(c).value, x.point(p).value, x.point(l).value,
                         PublishedTime(l)))
  {
  }

  lemma ShownAdds(x: Settings, d: Draft, c: Shown)
    ensures AddShown(x, d, c).metrics == d.metrics + TwoMetrics(Some(c))
  {
  }

  /** The metrics cite these two closes. */
  predicate CitesThese(shown: seq<Metric>, p: SourceRecord, l: SourceRecord) {
    var from, to := QuoteReference(p), QuoteReference(l);
    && |shown| == 2 && from.Some? && to.Some?
    && shown[0].evidence == [to.value] && shown[1].evidence == [from.value, to.value]
  }

  lemma OneQuote(records: seq<SourceRecord>, a: SourceRecord, b: SourceRecord)
    requires Indexable(records) && a in records && b in records && QuoteReference(a).Some? && QuoteReference(a) == QuoteReference(b)
    ensures a == b
  {
    assert KeyOf(a) == KeyOf(b) && !Clash(a, b);
  }

  /** Exactly when a shown change cites the two closes it was computed from: when each of them is the last record of the
      series with its ID. */
  lemma CitesComparedIffLast(x: Settings, d: Draft, s: Series, p: SourceRecord, l: SourceRecord)
    requires Indexable(s.records) && LastTwo(x, s.records) == Some((p, l)) && AddSeries(x, d, s).metrics != d.metrics
    ensures d.metrics <= AddSeries(x, d, s).metrics
    ensures CitesThese(AddSeries(x, d, s).metrics[|d.metrics|..], p, l) <==> LastWithId(s.records, p) && LastWithId(s.records, l)
  {
    SeriesShows(x, d, s);
    PairCloses(x, s.records);
    AddedSome(d.metrics, AddSeries(x, d, s).metrics);
    ShownCitesIff(x, s.records, AddSeries(x, d, s).metrics[|d.metrics|..], p, l);
  }

  lemma AddedSome(before: seq<Metric>, after: seq<Metric>)
    requires before <= after && before != after
    ensures after[|before|..] != []
  {
    assert after == before + after[|before|..];
  }

  lemma ShownCitesIff(x: Settings, records: seq<SourceRecord>, shown: seq<Metric>, p: SourceRecord, l: SourceRecord)
    requires Indexable(records) && p in records && l in records && LastTwo(x, records) == Some((p, l))
    requires shown != [] && exists e, c :: Cites(x, records, e, c, shown)
    ensures CitesThese(shown, p, l) <==> LastWithId(records, p) && LastWithId(records, l)
  {
    var e, c :| Cites(x, records, e, c, shown);
    CitesIff(x, records, p, l, e, c);
  }

  lemma CitesIff(x: Settings, records: seq<SourceRecord>, p: SourceRecord, l: SourceRecord, e: SourceRecord, c: SourceRecord)
    requires Indexable(records) && p in records && l in records && Dated(x, p) && Dated(x, l)
    requires LastWithId(records, e) && e.recordId == p.recordId && LastWithId(records, c) && c.recordId == l.recordId
    requires ShownFor(x, p, l, e, c) != []
    ensures CitesThese(ShownFor(x, p, l, e, c), p, l) <==> LastWithId(records, p) && LastWithId(records, l)
  {
    assert e in records && c in records;
    assert CitesThese(ShownFor(x, p, l, e, c), e, c);
    if CitesThese(ShownFor(x, p, l, e, c), p, l) {
      OneQuote(records, e, p);
      OneQuote(records, c, l);
    }
    if LastWithId(records, p) && LastWithId(records, l) {
      OneLastWithId(records, e, p);
      OneLastWithId(records, c, l);
    }
  }

  /** Two closes under one record ID: the change is taken between them, but the newer one is cited for both. */
  lemma SharedIdCitesOne(x: Settings, d: Draft, s: Series, a: SourceRecord, b: SourceRecord)
    requires s.records == [a, b] && Indexable(s.records)
    requires a.recordId == b.recordId && a.revision != b.revision && FamilyOf(a) != FamilyOf(b)
    requires Dated(x, a) && Dated(x, b) && CloseLess(x, a, b) && x.point(a).value.value != 0.0
    requires QuoteReference(a).Some? && QuoteReference(b).Some?
    ensures LastTwo(x, s.records) == Some((a, b))
    ensures var shown, cited := AddSeries(x, d, s).metrics[|d.metrics|..], QuoteReference(b).value;
            && |shown| == 2 && cited != QuoteReference(a).value
            && shown[1].value == Some(x.point(b).value.value - x.point(a).value.value)
            && shown[0].evidence == [cited] && shown[1].evidence == [cited, cited]
  {
    OneThenOther(x, a, b);
    SeriesAdds(x, d, s);
    BothFound(a, b);
    FoundIsShown(x, s.records, a, b, b, b);
    BothCited(x, a, b);
    assert AddSeries(x, d, s).metrics[|d.metrics|..] == ShownFor(x, a, b, b, b);
  }

  lemma OneThenOther(x: Settings, a: SourceRecord, b: SourceRecord)
    requires Dated(x, a) && Dated(x, b) && CloseLess(x, a, b) && x.point(a).value.value != 0.0
    ensures LastTwo(x, [a, b]) == Some((a, b))
  {
    FilterAll((r: SourceRecord) => Dated(x, r), [a, b]);
    CloseLessWeak(x);
    PairIs(x, [a, b], 0, 1);
  }

  lemma BothCited(x: Settings, a: SourceRecord, b: SourceRecord)
    requires Dated(x, a) && Dated(x, b) && QuoteReference(a).Some? && QuoteReference(b).Some? && a.revision != b.revision
    ensures var shown, cited := ShownFor(x, a, b, b, b), QuoteReference(b).value;
            && |shown| == 2 && cited != QuoteReference(a).value
            && shown[1].value == Some(x.point(b).value.value - x.point(a).value.value)
            && shown[0].evidence == [cited] && shown[1].evidence == [cited, cited]
  {
  }

  lemma BothFound(a: SourceRecord, b: SourceRecord)
    requires a.recordId == b.recordId
    ensures ById([a, b], a.recordId) == Some(b)
  {
  }
}
