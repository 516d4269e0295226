module Common {
  /** Result types, time and a few facts about finite sequences and sets that every component uses. */

  /** A nullable column or an optional value. */
  datatype Option<+T> = None | Some(value: T)

  /** The repository's error codes: `reject` raises one and rolls its transaction back. */
  datatype ErrorCode =
    | Timeout | RateLimited | Unauthorized | Forbidden | QuotaExhausted | InvalidInput | InvalidOutput
    | Unavailable | NotImplemented | ReplayRejected | RevisionMismatch

  datatype Result<+T> = Ok(value: T) | Err(code: ErrorCode)

  /** Seconds on the repository clock, which never runs backwards. */
  type Time = int

  function Pow2(n: nat): nat { if n == 0 then 1 else 2 * Pow2(n - 1) }

  /** Python's white space: what `isspace` accepts and `strip` removes. */
  predicate IsSpace(c: char) {
    var u := c as int;
    || u == 0x20 || 0x09 <= u <= 0x0D || 0x1C <= u <= 0x1F || u == 0x85 || u == 0xA0 || u == 0x1680
    || 0x2000 <= u <= 0x200A || u == 0x2028 || u == 0x2029 || u == 0x202F || u == 0x205F || u == 0x3000
  }

  /** Nothing but white space. */
  predicate Blank(s: string) {
    forall i :: 0 <= i < |s| ==> IsSpace(s[i])
  }

  predicate Distinct<T(==)>(s: seq<T>) {
    forall i, j :: 0 <= i < j < |s| ==> s[i] != s[j]
  }

  function Range(n: nat): (r: set<nat>)
    ensures |r| == n
    ensures forall k: nat :: k in r <==> 1 <= k <= n
  {
    if n == 0 then {} else Range(n - 1) + {n}
  }

  lemma SubsetSize<T>(small: set<T>, large: set<T>)
    requires small <= large
    ensures |small| <= |large|
  {
    assert large == small + (large - small);
  }

  function ToSet<T>(s: seq<T>): set<T> { set x | x in s }

  /** A sequence has as many members as places exactly when it repeats none. */
  lemma {:induction false} DistinctSize<T>(s: seq<T>)
    ensures |ToSet(s)| <= |s|
    ensures |ToSet(s)| == |s| <==> Distinct(s)
  {
    if s != [] {
      var rest, last := s[..|s| - 1], s[|s| - 1];
      DistinctSize(rest);
      assert ToSet(s) == ToSet(rest) + {last};
      if last in rest {
        var k :| 0 <= k < |rest| && rest[k] == last;
        assert s[k] == s[|s| - 1];
      }
    }
  }

  /** The database's and Python's order on identifiers. */
  predicate StringLess(a: string, b: string) {
    b != "" && (a == "" || a[0] < b[0] || (a[0] == b[0] && StringLess(a[1..], b[1..])))
  }

  lemma {:induction false} StringLessTrans(a: string, b: string, c: string)
    requires StringLess(a, b) && StringLess(b, c)
    ensures StringLess(a, c)
  {
    if a != "" && a[0] == b[0] == c[0] {
      StringLessTrans(a[1..], b[1..], c[1..]);
    }
  }

  lemma {:induction false} StringLessTotal(a: string, b: string)
    ensures StringLess(a, b) || a == b || StringLess(b, a)
    ensures !(StringLess(a, b) && StringLess(b, a)) && (StringLess(a, b) ==> a != b)
  {
    if a != "" && b != "" && a[0] == b[0] {
      StringLessTotal(a[1..], b[1..]);
      assert a == [a[0]] + a[1..] && b == [b[0]] + b[1..];
    }
  }

  lemma SliceOfSlice<T>(s: seq<T>, a: nat, b: nat, i: nat, j: nat)
    requires a <= b <= |s| && i <= j <= b - a
    ensures s[a..b][i..j] == s[a + i..a + j]
  {
    var part, whole := s[a..b][i..j], s[a + i..a + j];
    forall k | 0 <= k < j - i ensures part[k] == whole[k] {
      assert part[k] == s[a..b][i + k] == s[a + i + k];
    }
  }

  lemma SameSlice<T>(s: seq<T>, lo: nat, hi: nat, part: seq<T>)
    requires lo <= hi <= |s| && |part| == hi - lo && forall k :: 0 <= k < hi - lo ==> s[lo + k] == part[k]
    ensures s[lo..hi] == part
  {
  }

  // ---- Python's stable `sorted` ----

  function InsertBy<T>(less: (T, T) -> bool, x: T, s: seq<T>): (r: seq<T>)
    ensures multiset(r) == multiset(s) + multiset{x}
  {
    if s == [] || !less(s[0], x) then [x] + s
    else
      assert s == [s[0]] + s[1..];
      [s[0]] + InsertBy(less, x, s[1..])
  }

  function SortBy<T>(less: (T, T) -> bool, s: seq<T>): (r: seq<T>)
    ensures multiset(r) == multiset(s)
  {
    if s == [] then []
    else
      assert s == [s[0]] + s[1..];
      InsertBy(less, s[0], SortBy(less, s[1..]))
  }

  ghost predicate WeakOrder<T(!new)>(less: (T, T) -> bool) {
    && (forall a, b :: less(a, b) ==> !less(b, a))
    && (forall a, b, c :: less(a, c) ==> less(a, b) || less(b, c))
  }

  predicate OrderedBy<T>(less: (T, T) -> bool, s: seq<T>) {
    forall i, j :: 0 <= i < j < |s| ==> !less(s[j], s[i])
  }

  lemma SameMembers<T>(a: seq<T>, b: seq<T>)
    requires multiset(a) == multiset(b)
    ensures |a| == |b| && forall x :: x in a <==> x in b
  {
    assert |multiset(a)| == |a| && |multiset(b)| == |b|;
    forall x ensures x in a <==> x in b {
      assert x in a <==> x in multiset(a);
      assert x in b <==> x in multiset(b);
    }
  }

  lemma {:induction false} InsertOrdered<T(!new)>(less: (T, T) -> bool, x: T, s: seq<T>)
    requires WeakOrder(less) && OrderedBy(less, s)
    ensures OrderedBy(less, InsertBy(less, x, s))
  {
    if s != [] && less(s[0], x) {
      var rest := InsertBy(less, x, s[1..]);
      InsertOrdered(less, x, s[1..]);
      assert multiset(rest) == multiset([x] + s[1..]);
      SameMembers(rest, [x] + s[1..]);
      forall y | y in rest ensures !less(y, s[0]) {
        if y != x { assert y in s[1..]; }
      }
    }
  }

  lemma {:induction false} SortOrdered<T(!new)>(less: (T, T) -> bool, s: seq<T>)
    requires WeakOrder(less)
    ensures OrderedBy(less, SortBy(less, s))
    ensures |SortBy(less, s)| == |s| && forall x :: x in SortBy(less, s) <==> x in s
  {
    if s != [] {
      SortOrdered(less, s[1..]);
      InsertOrdered(less, s[0], SortBy(less, s[1..]));
    }
    SameMembers(SortBy(less, s), s);
  }

  lemma StringLessWeak()
    ensures WeakOrder(StringLess)
  {
    forall a, b: string ensures StringLess(a, b) ==> !StringLess(b, a) {
      StringLessTotal(a, b);
    }
    forall a, b, c: string | StringLess(a, c) ensures StringLess(a, b) || StringLess(b, c) {
      StringLessTotal(a, b);
      StringLessTotal(b, c);
      if StringLess(b, a) { StringLessTrans(b, a, c); }
    }
  }
}
