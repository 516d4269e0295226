module Revisions {
  /** Selecting the latest known revision of every source family: the dictionary loops that open
  `_validate` (`intelligence/assessment.py`) and `build` (`reporting/service.py`). */

  import opened Common
  import opened Contracts

  type Family = (string, string)

  function FamilyOf(r: SourceRecord): Family { (r.sourceId, r.externalId) }

  /** A dictionary in insertion order: the position of a family, or the end. */
  function Place(latest: seq<SourceRecord>, f: Family): (i: nat)
    ensures i <= |latest| && (i < |latest| ==> FamilyOf(latest[i]) == f)
    ensures forall k :: 0 <= k < i ==> FamilyOf(latest[k]) != f
  {
    if latest == [] then 0 else if FamilyOf(latest[0]) == f then 0 else Place(latest[1..], f) + 1
  }

  function Admit(latest: seq<SourceRecord>, r: SourceRecord): seq<SourceRecord> {
    var i := Place(latest, FamilyOf(r));
    if i == |latest| then latest + [r] else if r.revision > latest[i].revision then latest[i := r] else latest
  }

  function Latest(records: seq<SourceRecord>): seq<SourceRecord> {
    if records == [] then [] else Admit(Latest(records[..|records| - 1]), records[|records| - 1])
  }

  function Filter<T(!new)>(keep: T -> bool, s: seq<T>): (r: seq<T>)
    ensures forall x :: x in r <==> x in s && keep(x)
  {
    if s == [] then []
    else
      var rest := Filter(keep, s[..|s| - 1]);
      assert forall x :: x in s <==> x in s[..|s| - 1] || x == s[|s| - 1];
      if keep(s[|s| - 1]) then rest + [s[|s| - 1]] else rest
  }

  lemma {:induction false} FilterAll<T(!new)>(keep: T -> bool, s: seq<T>)
    requires forall x :: x in s ==> keep(x)
    ensures Filter(keep, s) == s
    decreases |s|
  {
    if s != [] { FilterAll(keep, s[..|s| - 1]); }
  }

  lemma {:induction false} FilterCounts<T(!new)>(keep: T -> bool, s: seq<T>, v: T)
    ensures multiset(Filter(keep, s))[v] == if keep(v) then multiset(s)[v] else 0
    decreases |s|
  {
    if s != [] {
      var rest, last := s[..|s| - 1], s[|s| - 1];
      FilterCounts(keep, rest, v);
      assert s == rest + [last];
      assert Filter(keep, s) == Filter(keep, rest) + if keep(last) then [last] else [];
    }
  }

  lemma FilterPermutes<T(!new)>(keep: T -> bool, s: seq<T>, t: seq<T>)
    requires multiset(s) == multiset(t)
    ensures multiset(Filter(keep, s)) == multiset(Filter(keep, t)) && |Filter(keep, s)| == |Filter(keep, t)|
  {
    forall v ensures multiset(Filter(keep, s))[v] == multiset(Filter(keep, t))[v] {
      FilterCounts(keep, s, v);
      FilterCounts(keep, t, v);
    }
    assert multiset(Filter(keep, s)) == multiset(Filter(keep, t));
    SameMembers(Filter(keep, s), Filter(keep, t));
  }

  lemma {:induction false} FilterJoin<T(!new)>(keep: T -> bool, a: seq<T>, b: seq<T>)
    ensures Filter(keep, a + b) == Filter(keep, a) + Filter(keep, b)
    decreases |b|
  {
    if b == [] {
      assert a + b == a;
    } else {
      FilterJoin(keep, a, b[..|b| - 1]);
      assert (a + b)[..|a + b| - 1] == a + b[..|b| - 1];
    }
  }

  predicate OnePerFamily(latest: seq<SourceRecord>) {
    forall i, j :: 0 <= i < j < |latest| ==> FamilyOf(latest[i]) != FamilyOf(latest[j])
  }

  predicate Covers(latest: seq<SourceRecord>, r: SourceRecord) {
    exists a :: a in latest && FamilyOf(a) == FamilyOf(r) && a.revision >= r.revision
  }

  lemma AdmitKeeps(before: seq<SourceRecord>, r: SourceRecord)
    requires OnePerFamily(before)
    ensures OnePerFamily(Admit(before, r)) && Covers(Admit(before, r), r)
    ensures forall a :: a in Admit(before, r) ==> a in before || a == r
    ensures forall x :: Covers(before, x) ==> Covers(Admit(before, r), x)
  {
    var i, after := Place(before, FamilyOf(r)), Admit(before, r);
    assert after[i] in after;
    forall x | Covers(before, x) ensures Covers(after, x) {
      var a :| a in before && FamilyOf(a) == FamilyOf(x) && a.revision >= x.revision;
      var k :| 0 <= k < |before| && before[k] == a;
      assert after[k] in after;
    }
  }

  /** One record per family, taken from the input, with the highest revision the input has of it. */
  lemma {:induction false} LatestIsNewest(records: seq<SourceRecord>)
    ensures OnePerFamily(Latest(records))
    ensures forall a :: a in Latest(records) ==> a in records
    ensures forall r :: r in records ==> Covers(Latest(records), r)
  {
    if records != [] {
      var rest, r := records[..|records| - 1], records[|records| - 1];
      LatestIsNewest(rest);
      AdmitKeeps(Latest(rest), r);
      assert forall x :: x in records <==> x in rest || x == r;
    }
  }

  lemma LatestOneMore(records: seq<SourceRecord>, known: SourceRecord -> bool, n: nat)
    requires n < |records|
    ensures Latest(Filter(known, records[..n + 1]))
      == if known(records[n]) then Admit(Latest(Filter(known, records[..n])), records[n]) else Latest(Filter(known, records[..n]))
  {
    assert records[..n + 1][..n] == records[..n];
    var kept := Filter(known, records[..n]);
    if known(records[n]) { assert Filter(known, records[..n + 1]) == kept + [records[n]] && (kept + [records[n]])[..|kept|] == kept; }
  }

  /** The loop, over the records that are known. */
  method LatestRevisions(records: seq<SourceRecord>, known: SourceRecord -> bool) returns (latest: seq<SourceRecord>)
    ensures latest == Latest(Filter(known, records))
  {
    latest := [];
    for n := 0 to |records|
      invariant latest == Latest(Filter(known, records[..n]))
    {
      var r := records[n];
      LatestOneMore(records, known, n);
      if !known(r) {
        continue;
      }
      var i := Place(latest, FamilyOf(r));
      if i == |latest| {
        latest := latest + [r];
      } else if r.revision > latest[i].revision {
        latest := latest[i := r];
      }
    }
    assert records[..|records|] == records;
  }
}
