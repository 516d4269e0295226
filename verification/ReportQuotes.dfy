module ReportQuotes {
  /** Quote changes of a cutoff report, independent of the order the observations came in. */

  import opened Common
  import opened Contracts
  import opened Revisions
  import opened ReportDraft

  lemma QuoteLessWeak()
    ensures WeakOrder(QuoteLess)
  {
    StringLessWeak();
    forall a, b, c: Observation | QuoteLess(a, c) ensures QuoteLess(a, b) || QuoteLess(b, c) {
      if StringLess(a.observationId, c.observationId) {
        assert StringLess(a.observationId, b.observationId) || StringLess(b.observationId, c.observationId);
      }
    }
    forall a, b: Observation ensures QuoteLess(a, b) ==> !QuoteLess(b, a) {
      assert StringLess(a.observationId, b.observationId) ==> !StringLess(b.observationId, a.observationId);
    }
  }

  /** Of the time nearest before `t`. */
  predicate Nearest(items: seq<Observation>, t: Time, p: Observation) {
    p in items && p.asOf < t && forall v :: v in items && v.asOf < t ==> v.asOf <= p.asOf
  }

  /** Some other value is quoted for the same time. */
  predicate Contested(items: seq<Observation>, v: Observation) { exists w :: w in items && w.asOf == v.asOf && w.value != v.value }

  lemma {:induction false} NearestEarlierIs(items: seq<Observation>, t: Time)
    requires OrderedBy(QuoteLess, items)
    ensures NearestEarlier(items, t).Some? <==> exists v :: v in items && v.asOf < t
    ensures NearestEarlier(items, t).Some? ==> Nearest(items, t, NearestEarlier(items, t).value)
    decreases |items|
  {
    if items != [] {
      var rest, last := items[..|items| - 1], items[|items| - 1];
      NearestEarlierIs(rest, t);
      forall v | v in items ensures v.asOf <= last.asOf {
        var i :| 0 <= i < |items| && items[i] == v;
        if i < |items| - 1 { assert !QuoteLess(items[|items| - 1], items[i]); }
      }
    }
  }

  lemma ContestedIsDisputed(items: seq<Observation>, sorted: seq<Observation>, v: Observation)
    requires forall w :: w in items <==> w in sorted
    ensures Contested(items, v) <==> Disputed(sorted, v)
  {
    if Disputed(sorted, v) {
      var i :| 0 <= i < |sorted| && sorted[i].asOf == v.asOf && sorted[i].value != v.value;
      assert sorted[i] in items;
    }
    if Contested(items, v) {
      var w :| w in items && w.asOf == v.asOf && w.value != v.value;
      var i :| 0 <= i < |sorted| && sorted[i] == w;
    }
  }

  /** Main result, in terms that do not depend on the order of the quotes: a change is reported exactly when the newest
      quote is current, there is an earlier one, and neither time is contested; and it is then the newest value minus
      any value of the nearest strictly earlier time. */
  lemma ChangeMeans(items: seq<Observation>, reportDate: int)
    requires items != []
    ensures var sorted := SortBy(QuoteLess, items);
            && |sorted| == |items|
            && var latest, change := sorted[|sorted| - 1], Change(sorted, reportDate);
            && latest in items && (forall v :: v in items ==> !QuoteLess(latest, v))
            && (change.Some? <==>
                (IsCurrent(latest, reportDate) && !Contested(items, latest)
                 && exists p :: Nearest(items, latest.asOf, p) && !Contested(items, p)))
            && (change.Some? ==> forall p :: Nearest(items, latest.asOf, p) ==> change.value.0 == latest.value - p.value)
  {
    QuoteLessWeak();
    SortOrdered(QuoteLess, items);
    var sorted := SortBy(QuoteLess, items);
    var latest, rest := sorted[|sorted| - 1], sorted[..|sorted| - 1];
    assert latest in sorted;
    forall v | v in items ensures !QuoteLess(latest, v) {
      var i :| 0 <= i < |sorted| && sorted[i] == v;
      if i < |sorted| - 1 { assert !QuoteLess(sorted[|sorted| - 1], sorted[i]); } else { StringLessTotal(v.observationId, v.observationId); }
    }
    EarlierMeans(items, sorted);
    ChangeCases(items, sorted, reportDate);
  }

  lemma EarlierMeans(items: seq<Observation>, sorted: seq<Observation>)
    requires sorted != [] && OrderedBy(QuoteLess, sorted) && forall v :: v in items <==> v in sorted
    ensures var latest := sorted[|sorted| - 1];
            var previous := NearestEarlier(sorted[..|sorted| - 1], latest.asOf);
            && (previous.Some? ==> Nearest(items, latest.asOf, previous.value))
            && (previous.None? ==> forall p :: !Nearest(items, latest.asOf, p))
  {
    var latest, rest := sorted[|sorted| - 1], sorted[..|sorted| - 1];
    NearestEarlierIs(rest, latest.asOf);
    assert forall v :: v in sorted <==> v in rest || v == latest;
  }

  lemma ChangeCases(items: seq<Observation>, sorted: seq<Observation>, reportDate: int)
    requires sorted != [] && OrderedBy(QuoteLess, sorted) && forall v :: v in items <==> v in sorted
    ensures var latest, change := sorted[|sorted| - 1], Change(sorted, reportDate);
            && (change.Some? <==>
                (IsCurrent(latest, reportDate) && !Contested(items, latest)
                 && exists p :: Nearest(items, latest.asOf, p) && !Contested(items, p)))
            && (change.Some? ==> forall p :: Nearest(items, latest.asOf, p) ==> change.value.0 == latest.value - p.value)
  {
    EarlierMeans(items, sorted);
    var latest := sorted[|sorted| - 1];
    var previous := NearestEarlier(sorted[..|sorted| - 1], latest.asOf);
    ContestedIsDisputed(items, sorted, latest);
    if previous.Some? {
      ContestedIsDisputed(items, sorted, previous.value);
      forall p | Nearest(items, latest.asOf, p) ensures p.asOf == previous.value.asOf {}
    }
  }

  /** The order in which a group's quotes came in does not matter to it at all. */
  lemma SortForgetsOrder(a: seq<Observation>, b: seq<Observation>)
    requires multiset(a) == multiset(b)
    requires forall v, w :: v in a && w in a && v != w ==> v.observationId != w.observationId
    ensures SortBy(QuoteLess, a) == SortBy(QuoteLess, b)
  {
    QuoteLessWeak();
    SortOrdered(QuoteLess, a);
    SortOrdered(QuoteLess, b);
    SameMembers(a, b);
    OrderedUnique(SortBy(QuoteLess, a), SortBy(QuoteLess, b));
  }

  lemma {:induction false} OrderedUnique(a: seq<Observation>, b: seq<Observation>)
    requires multiset(a) == multiset(b) && OrderedBy(QuoteLess, a) && OrderedBy(QuoteLess, b)
    requires forall v, w :: v in a && w in a && v != w ==> v.observationId != w.observationId
    ensures a == b
    decreases |a|
  {
    SameMembers(a, b);
    if a != [] {
      var n := |a| - 1;
      var x, y := a[n], b[n];
      assert x in b && y in a;
      NoneAfter(a, y);
      NoneAfter(b, x);
      StringLessTotal(x.observationId, y.observationId);
      assert x == y;
      WithoutLast(a, b, x);
      OrderedUnique(a[..n], b[..n]);
    }
  }

  lemma WithoutLast(a: seq<Observation>, b: seq<Observation>, x: Observation)
    requires multiset(a) == multiset(b) && a != [] && |a| == |b| && a[|a| - 1] == x == b[|b| - 1]
    ensures multiset(a[..|a| - 1]) == multiset(b[..|b| - 1]) && a == a[..|a| - 1] + [x] && b == b[..|b| - 1] + [x]
  {
    var p, q := a[..|a| - 1], b[..|b| - 1];
    assert a == p + [x] && b == q + [x];
    assert multiset(p) + multiset{x} == multiset(q) + multiset{x};
    forall v ensures multiset(p)[v] == multiset(q)[v] {
      assert (multiset(p) + multiset{x})[v] == (multiset(q) + multiset{x})[v];
    }
  }

  lemma NoneAfter(s: seq<Observation>, v: Observation)
    requires s != [] && OrderedBy(QuoteLess, s) && v in s
    ensures !QuoteLess(s[|s| - 1], v)
  {
    var i :| 0 <= i < |s| && s[i] == v;
    StringLessTotal(v.observationId, v.observationId);
  }
}
