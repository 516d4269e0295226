module EiaOrder {
  /** What the order of the source records can change about the daily changes of a report's EIA series. */

  import opened Common
  import opened Contracts
  import opened Revisions
  import opened ReportDraft
  import opened EiaCloses

  // ---- counting ----

  lemma {:induction false} FilterSame<T(!new)>(keep: T -> bool, also: T -> bool, s: seq<T>)
    requires forall v :: keep(v) <==> also(v)
    ensures Filter(keep, s) == Filter(also, s)
    decreases |s|
  {
    if s != [] { FilterSame(keep, also, s[..|s| - 1]); }
  }

  lemma {:induction false} FilterNone<T(!new)>(keep: T -> bool, s: seq<T>)
    requires forall k :: 0 <= k < |s| ==> !keep(s[k])
    ensures Filter(keep, s) == []
    decreases |s|
  {
    if s != [] { FilterNone(keep, s[..|s| - 1]); }
  }

  lemma {:induction false} CountAtMostOne<T(!new)>(keep: T -> bool, s: seq<T>, j: nat)
    requires forall k :: 0 <= k < |s| && k != j ==> !keep(s[k])
    ensures |Filter(keep, s)| <= 1
    decreases |s|
  {
    if s != [] {
      var rest := s[..|s| - 1];
      if j == |s| - 1 { FilterNone(keep, rest); } else { CountAtMostOne(keep, rest, j); }
    }
  }

  lemma CountTwo<T(!new)>(keep: T -> bool, s: seq<T>, i: nat, j: nat)
    requires i < j < |s| && keep(s[i]) && keep(s[j])
    ensures |Filter(keep, s)| >= 2
  {
    assert s == s[..j] + s[j..];
    FilterJoin(keep, s[..j], s[j..]);
    assert s[i] in s[..j] && s[j] in s[j..];
    assert s[i] in Filter(keep, s[..j]) && s[j] in Filter(keep, s[j..]);
  }

  // ---- one series ----

  function ValueOf(x: Settings, r: SourceRecord): real { if x.point(r).Some? then x.point(r).value.value else 0.0 }

  /** The change of a series, if it has one. */
  function ChangeOf(x: Settings, records: seq<SourceRecord>): Option<real> {
    var pair := LastTwo(x, records);
    if pair.None? then None else Some(ValueOf(x, pair.value.1) - ValueOf(x, pair.value.0))
  }

  function Later(less: Order, c: SourceRecord): SourceRecord -> bool { (r: SourceRecord) => less(c, r) }

  /** Two unequal closes of one time and period that reach the last two places: fewer than two closes are later. */
  predicate Contested(x: Settings, closes: seq<SourceRecord>, a: SourceRecord, b: SourceRecord) {
    && a in closes && b in closes && ValueOf(x, a) != ValueOf(x, b) && Level(ByClose(x), a, b)
    && |Filter(Later(ByClose(x), a), closes)| < 2
  }

  predicate Level(less: Order, a: SourceRecord, b: SourceRecord) { !less(a, b) && !less(b, a) }

  ghost predicate Settled(x: Settings, records: seq<SourceRecord>) { forall a, b :: !Contested(x, ClosesOf(x, records), a, b) }

  lemma ContestedPermutes(x: Settings, s: seq<SourceRecord>, t: seq<SourceRecord>, a: SourceRecord, b: SourceRecord)
    requires multiset(s) == multiset(t)
    ensures Contested(x, ClosesOf(x, s), a, b) <==> Contested(x, ClosesOf(x, t), a, b)
  {
    var c, d := ClosesOf(x, s), ClosesOf(x, t);
    FilterPermutes((r: SourceRecord) => Dated(x, r), s, t);
    SameMembers(c, d);
    FilterPermutes(Later(ByClose(x), a), c, d);
  }

  /** No close but the last is later than one of the last two. */
  lemma FewLater(less: Order, c: seq<SourceRecord>, i: nat, j: nat)
    requires WeakOrder(less) && LastPlaces(less, c, i, j)
    ensures |Filter(Later(less, c[i]), c)| <= 1 && |Filter(Later(less, c[j]), c)| <= 1
  {
    forall a | 0 <= a < |c| && a != j ensures !less(c[i], c[a]) && !less(c[j], c[a]) {
      assert a != i ==> Before(less, c, a, i);
      assert Before(less, c, a, j);
    }
    CountAtMostOne(Later(less, c[i]), c, j);
    CountAtMostOne(Later(less, c[j]), c, j);
  }

  /** The last two closes of one order are as late as those of another. */
  lemma SameEnds(less: Order, c: seq<SourceRecord>, d: seq<SourceRecord>, i: nat, j: nat, k: nat, m: nat)
    requires WeakOrder(less) && multiset(c) == multiset(d) && LastPlaces(less, c, i, j) && LastPlaces(less, d, k, m)
    ensures !less(c[i], d[k]) && !less(c[j], d[m])
  {
    FewLater(less, c, i, j);
    FilterPermutes(Later(less, c[i]), c, d);
    if less(c[i], d[k]) {
      assert Before(less, d, k, m);
      CountTwo(Later(less, c[i]), d, if k < m then k else m, if k < m then m else k);
    }
    SameMembers(c, d);
    assert d[m] in c;
    var a :| 0 <= a < |c| && c[a] == d[m];
    assert a != j ==> Before(less, c, a, j);
  }

  /** The change from one close to another. */
  function Step(x: Settings, p: SourceRecord, l: SourceRecord): Option<real> {
    if ValueOf(x, p) == 0.0 then None else Some(ValueOf(x, l) - ValueOf(x, p))
  }

  lemma ChangeIsStep(x: Settings, records: seq<SourceRecord>, i: nat, j: nat)
    requires LastPlaces(ByClose(x), ClosesOf(x, records), i, j)
    ensures ChangeOf(x, records) == Step(x, ClosesOf(x, records)[i], ClosesOf(x, records)[j])
  {
    PairIs(x, records, i, j);
  }

  lemma LastPlacesExist(x: Settings, records: seq<SourceRecord>) returns (i: nat, j: nat)
    requires |ClosesOf(x, records)| >= 2
    ensures LastPlaces(ByClose(x), ClosesOf(x, records), i, j)
  {
    CloseLessWeak(x);
    i, j := SortEnds(ByClose(x), ClosesOf(x, records));
  }

  lemma SettledLevel(x: Settings, records: seq<SourceRecord>, a: SourceRecord, b: SourceRecord)
    requires Settled(x, records) && a in ClosesOf(x, records) && b in ClosesOf(x, records) && Level(ByClose(x), a, b)
    requires |Filter(Later(ByClose(x), a), ClosesOf(x, records))| < 2
    ensures ValueOf(x, a) == ValueOf(x, b)
  {
    assert !Contested(x, ClosesOf(x, records), a, b);
  }

  lemma SettledSameChange(x: Settings, s: seq<SourceRecord>, t: seq<SourceRecord>)
    requires multiset(s) == multiset(t) && Settled(x, s)
    ensures ChangeOf(x, s) == ChangeOf(x, t)
  {
    var c, d := ClosesOf(x, s), ClosesOf(x, t);
    FilterPermutes((r: SourceRecord) => Dated(x, r), s, t);
    if |c| < 2 {
      CloseChangeMeans(x, s);
      CloseChangeMeans(x, t);
    } else {
      var i, j := LastPlacesExist(x, s);
      var k, m := LastPlacesExist(x, t);
      ChangeIsStep(x, s, i, j);
      ChangeIsStep(x, t, k, m);
      SettledEnds(x, s, t, i, j, k, m);
    }
  }

  lemma SettledEnds(x: Settings, s: seq<SourceRecord>, t: seq<SourceRecord>, i: nat, j: nat, k: nat, m: nat)
    requires multiset(ClosesOf(x, s)) == multiset(ClosesOf(x, t)) && Settled(x, s)
    requires LastPlaces(ByClose(x), ClosesOf(x, s), i, j) && LastPlaces(ByClose(x), ClosesOf(x, t), k, m)
    ensures ValueOf(x, ClosesOf(x, s)[i]) == ValueOf(x, ClosesOf(x, t)[k])
    ensures ValueOf(x, ClosesOf(x, s)[j]) == ValueOf(x, ClosesOf(x, t)[m])
  {
    var less, c, d := ByClose(x), ClosesOf(x, s), ClosesOf(x, t);
    CloseLessWeak(x);
    FewLater(less, c, i, j);
    SameEnds(less, c, d, i, j, k, m);
    SameEnds(less, d, c, k, m, i, j);
    SameMembers(c, d);
    assert d[k] in d && d[m] in d;
    SettledLevel(x, s, c[i], d[k]);
    SettledLevel(x, s, c[j], d[m]);
  }

  /** Where two closes of one time and period come that stand last in the input and have at most one later close. */
  lemma EndPlaces(less: Order, s: seq<SourceRecord>, a: SourceRecord, b: SourceRecord) returns (i: nat, j: nat)
    requires WeakOrder(less) && Level(less, a, b) && |Filter(Later(less, a), s)| < 2
    ensures LastPlaces(less, s + [a, b], i, j)
    ensures if Filter(Later(less, a), s) == [] then i == |s| && j == |s| + 1
            else i == |s| + 1 && j < |s| && s[j] == Filter(Later(less, a), s)[0]
  {
    var late := Filter(Later(less, a), s);
    if late == [] {
      i, j := |s|, |s| + 1;
      forall k | 0 <= k < |s| ensures !less(a, s[k]) { assert s[k] !in late; }
      NoneLater(less, s, a, b);
    } else {
      assert late[0] in late;
      var at :| 0 <= at < |s| && s[at] == late[0];
      i, j := |s| + 1, at;
      forall k | 0 <= k < |s| && k != j ensures !less(a, s[k]) {
        if less(a, s[k]) { CountTwo(Later(less, a), s, if k < j then k else j, if k < j then j else k); }
      }
      OneLater(less, s, a, b, j);
    }
  }

  lemma NotLater(less: Order, a: SourceRecord, b: SourceRecord, c: SourceRecord)
    requires WeakOrder(less) && Level(less, a, b) && !less(a, c)
    ensures !less(b, c)
  {
    assert less(b, c) ==> less(b, a) || less(a, c);
  }

  lemma NoneLater(less: Order, s: seq<SourceRecord>, a: SourceRecord, b: SourceRecord)
    requires WeakOrder(less) && Level(less, a, b) && forall k :: 0 <= k < |s| ==> !less(a, s[k])
    ensures LastPlaces(less, s + [a, b], |s|, |s| + 1)
  {
    var all := s + [a, b];
    forall k | 0 <= k < |s| ensures Before(less, all, k, |s|) && Before(less, all, k, |s| + 1) {
      NotLater(less, a, b, s[k]);
    }
  }

  lemma OneLater(less: Order, s: seq<SourceRecord>, a: SourceRecord, b: SourceRecord, j: nat)
    requires WeakOrder(less) && Level(less, a, b) && j < |s| && less(a, s[j])
    requires forall k :: 0 <= k < |s| && k != j ==> !less(a, s[k])
    ensures LastPlaces(less, s + [a, b], |s| + 1, j)
  {
    var all := s + [a, b];
    assert less(b, s[j]);
    forall k | 0 <= k < |s| && k != j ensures Before(less, all, k, j) && Before(less, all, k, |s| + 1) {
      NotLater(less, a, b, s[k]);
    }
  }

  lemma Swapped(less: Order, s: seq<SourceRecord>, a: SourceRecord, b: SourceRecord)
    requires WeakOrder(less) && Level(less, a, b)
    ensures Filter(Later(less, a), s) == Filter(Later(less, b), s)
  {
    forall r ensures Later(less, a)(r) <==> Later(less, b)(r) {
      assert less(a, r) ==> less(a, b) || less(b, r);
      assert less(b, r) ==> less(b, a) || less(a, r);
    }
    FilterSame(Later(less, a), Later(less, b), s);
  }

  /** The closes of a series that ends with two of them. */
  lemma ClosesEnd(x: Settings, s: seq<SourceRecord>, a: SourceRecord, b: SourceRecord)
    requires Dated(x, a) && Dated(x, b)
    ensures ClosesOf(x, s + [a, b]) == ClosesOf(x, s) + [a, b]
  {
    FilterJoin((r: SourceRecord) => Dated(x, r), s, [a, b]);
    FilterAll((r: SourceRecord) => Dated(x, r), [a, b]);
  }

  /** The change of a series that ends with two closes of one time and period, of which one is among the last two. */
  lemma ChangeAtEnd(x: Settings, s: seq<SourceRecord>, a: SourceRecord, b: SourceRecord)
    requires Dated(x, a) && Dated(x, b) && Level(ByClose(x), a, b)
    requires |Filter(Later(ByClose(x), a), ClosesOf(x, s))| < 2
    ensures ChangeOf(x, s + [a, b]) ==
              var late := Filter(Later(ByClose(x), a), ClosesOf(x, s));
              if late == [] then Step(x, a, b) else Step(x, b, late[0])
  {
    ClosesEnd(x, s, a, b);
    CloseLessWeak(x);
    var i, j := EndPlaces(ByClose(x), ClosesOf(x, s), a, b);
    ChangeIsStep(x, s + [a, b], i, j);
  }

  /** Exchanging two contested closes at the end changes the change. */
  lemma ExchangeMatters(x: Settings, s: seq<SourceRecord>, a: SourceRecord, b: SourceRecord)
    requires Contested(x, ClosesOf(x, s + [a, b]), a, b)
    ensures ChangeOf(x, s + [a, b]) != ChangeOf(x, s + [b, a])
  {
    assert Dated(x, a) && Dated(x, b);
    ClosesEnd(x, s, a, b);
    FilterJoin(Later(ByClose(x), a), ClosesOf(x, s), [a, b]);
    CloseLessWeak(x);
    Swapped(ByClose(x), ClosesOf(x, s), a, b);
    ChangeAtEnd(x, s, a, b);
    ChangeAtEnd(x, s, b, a);
  }

  lemma PartsCount<T>(p: seq<T>, a: T, q: seq<T>, b: T, r: seq<T>)
    ensures multiset(p + [a] + q + [b] + r) == multiset(p + q + r) + multiset{a, b}
  {
  }

  lemma WithoutPlaces<T>(s: seq<T>, lo: nat, hi: nat) returns (rest: seq<T>)
    requires lo < hi < |s|
    ensures multiset(s) == multiset(rest) + multiset{s[lo], s[hi]}
  {
    rest := s[..lo] + s[lo + 1..hi] + s[hi + 1..];
    assert s == s[..lo] + [s[lo]] + s[lo + 1..hi] + [s[hi]] + s[hi + 1..];
    PartsCount(s[..lo], s[lo], s[lo + 1..hi], s[hi], s[hi + 1..]);
  }

  lemma AndTwo<T>(rest: seq<T>, a: T, b: T)
    ensures multiset(rest + [a, b]) == multiset(rest + [b, a]) == multiset(rest) + multiset{a, b}
  {
  }

  lemma Apart<T>(s: seq<T>, a: T, b: T) returns (rest: seq<T>)
    requires a in s && b in s && a != b
    ensures multiset(rest + [a, b]) == multiset(rest + [b, a]) == multiset(s)
  {
    var i :| 0 <= i < |s| && s[i] == a;
    var j :| 0 <= j < |s| && s[j] == b;
    rest := WithoutPlaces(s, if i < j then i else j, if i < j then j else i);
    AndTwo(rest, a, b);
  }

  /** Main result: the change of a series is the same for every order of its records exactly when no two unequal closes of
      one time and period reach the last two places. */
  lemma OrderMattersIffContested(x: Settings, records: seq<SourceRecord>)
    ensures Settled(x, records) <==>
              forall os: seq<SourceRecord> :: multiset(os) == multiset(records) ==> ChangeOf(x, os) == ChangeOf(x, records)
  {
    if Settled(x, records) {
      forall os: seq<SourceRecord> | multiset(os) == multiset(records) ensures ChangeOf(x, os) == ChangeOf(x, records) {
        SettledSameChange(x, records, os);
      }
    } else {
      var a, b :| Contested(x, ClosesOf(x, records), a, b);
      var s, t := Orders(x, records, a, b);
      assert ChangeOf(x, s) != ChangeOf(x, records) || ChangeOf(x, t) != ChangeOf(x, records);
    }
  }

  lemma Orders(x: Settings, records: seq<SourceRecord>, a: SourceRecord, b: SourceRecord)
    returns (s: seq<SourceRecord>, t: seq<SourceRecord>)
    requires Contested(x, ClosesOf(x, records), a, b)
    ensures multiset(s) == multiset(t) == multiset(records) && ChangeOf(x, s) != ChangeOf(x, t)
  {
    var rest := Apart(records, a, b);
    s, t := rest + [a, b], rest + [b, a];
    ContestedPermutes(x, records, s, a, b);
    ExchangeMatters(x, rest, a, b);
  }

  /** Two unequal closes of one time and period in front of a later one: the last of the input is the one compared with. */
  lemma InputOrderDecides(x: Settings, a: SourceRecord, b: SourceRecord, c: SourceRecord)
    requires Dated(x, a) && Dated(x, b) && Dated(x, c) && Level(ByClose(x), a, b) && CloseLess(x, a, c)
    requires ValueOf(x, a) != 0.0 && ValueOf(x, b) != 0.0 && ValueOf(x, a) != ValueOf(x, b)
    ensures LastTwo(x, [a, b, c]) == Some((b, c)) && LastTwo(x, [b, a, c]) == Some((a, c))
    ensures ChangeOf(x, [a, b, c]) != ChangeOf(x, [b, a, c])
  {
    CloseLessWeak(x);
    assert ByClose(x)(b, c);
    LastOfThree(x, a, b, c);
    LastOfThree(x, b, a, c);
  }

  lemma LastOfThree(x: Settings, a: SourceRecord, b: SourceRecord, c: SourceRecord)
    requires Dated(x, a) && Dated(x, b) && Dated(x, c) && Level(ByClose(x), a, b) && CloseLess(x, a, c) && CloseLess(x, b, c)
    requires ValueOf(x, b) != 0.0
    ensures LastTwo(x, [a, b, c]) == Some((b, c))
  {
    FilterAll((r: SourceRecord) => Dated(x, r), [a, b, c]);
    CloseLessWeak(x);
    PairIs(x, [a, b, c], 1, 2);
  }
}
