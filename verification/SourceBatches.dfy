module SourceBatches {
  /** Fetching Jin10 items (`ingestion/jin10.py`) and committing them with their checkpoint (`persist_batch`,
  `_insert_record` of `storage/ingestion.py`).

  One source; provider pages and their schema checks are given. A cycle reads its checkpoint first, then the
  committed history of each item while other cycles may commit, and commits last. */

  import opened Common
  import opened Contracts
  import opened Revisions

  datatype Checkpoint = Checkpoint(
    cursor: Option<string>, watermark: Option<Time>, lastSuccessAt: Time, expectedNextAt: Time, more: bool)

  datatype Batch = Batch(records: seq<SourceRecord>, checkpoint: Checkpoint)

  // ---- paging ----

  datatype Page = Page(items: seq<SourceRecord>, hasMore: bool, next: Option<string>)

  /** The dictionary of items: one entry per external ID, in order of first appearance. */
  function ItemPlace(items: seq<SourceRecord>, external: string): (i: nat)
    ensures i <= |items| && (i < |items| ==> items[i].externalId == external)
    ensures forall k :: 0 <= k < i ==> items[k].externalId != external
  {
    if items == [] then 0 else if items[0].externalId == external then 0 else ItemPlace(items[1..], external) + 1
  }

  predicate DistinctItems(items: seq<SourceRecord>) {
    forall i, j :: 0 <= i < j < |items| ==> items[i].externalId != items[j].externalId
  }

  /** Exactly the items of these pages, each external ID once. */
  ghost predicate Collects(items: seq<SourceRecord>, pages: seq<Page>) {
    DistinctItems(items) && forall r :: r in items <==> r in ItemsOf(pages)
  }

  function ItemsOf(pages: seq<Page>): seq<SourceRecord> {
    if pages == [] then [] else ItemsOf(pages[..|pages| - 1]) + pages[|pages| - 1].items
  }

  function Externals(rs: seq<SourceRecord>): set<string> { set r | r in rs :: r.externalId }

  /** No external ID with two contents. */
  predicate Agree(rs: seq<SourceRecord>) { forall a, b :: a in rs && b in rs && a.externalId == b.externalId ==> a == b }

  datatype Limits = Limits(offsetParameter: bool, maxPages: nat, maxItems: nat)

  /** The offset the k-th page is asked for with. */
  function OffsetAt(pages: seq<Page>, start: Option<string>, k: nat): Option<string>
    requires k <= |pages|
  {
    if k == 0 then start else pages[k - 1].next
  }

  /** A further page is announced with a new, usable offset. */
  predicate Advances(pages: seq<Page>, start: Option<string>, limits: Limits, k: nat)
    requires k < |pages|
  {
    && pages[k].next.Some? && pages[k].next.value != "" && pages[k].next != OffsetAt(pages, start, k)
    && (forall i :: 0 <= i < k ==> pages[i].next != pages[k].next) && pages[k].items != [] && limits.offsetParameter
  }

  /** What the k-th page read must satisfy. */
  predicate PageOk(pages: seq<Page>, start: Option<string>, limits: Limits, k: nat)
    requires k < |pages|
  {
    && (OffsetAt(pages, start, k).Some? ==> limits.offsetParameter)
    && |pages[k].items| + |Externals(ItemsOf(pages[..k]))| <= limits.maxItems
    && Agree(ItemsOf(pages[..k + 1]))
    && (pages[k].hasMore ==> Advances(pages, start, limits, k))
  }

  /** How many pages are read when all goes well: up to the first without more, or the page limit. */
  function Depth(pages: seq<Page>, maxPages: nat): (n: nat)
    requires 1 <= maxPages <= |pages|
    ensures 1 <= n <= maxPages && (forall k :: 0 <= k < n - 1 ==> pages[k].hasMore) && (n == maxPages || !pages[n - 1].hasMore)
  {
    if maxPages == 1 || !pages[0].hasMore then 1 else Depth(pages[1..], maxPages - 1) + 1
  }

  predicate AllOk(pages: seq<Page>, start: Option<string>, limits: Limits, n: nat)
    requires n <= |pages|
  {
    forall k :: 0 <= k < n ==> PageOk(pages, start, limits, k)
  }

  predicate Succeeds(pages: seq<Page>, start: Option<string>, limits: Limits)
    requires 1 <= limits.maxPages <= |pages|
  {
    AllOk(pages, start, limits, Depth(pages, limits.maxPages))
  }

  datatype Fetched = Fetched(items: seq<SourceRecord>, hasMore: bool, offset: Option<string>)

  /** What the loop knows before page `k`. */
  ghost predicate Reading(pages: seq<Page>, start: Option<string>, k: nat, items: seq<SourceRecord>, offset: Option<string>, offsets: set<string>)
    requires k <= |pages|
  {
    && Collects(items, pages[..k]) && offset == OffsetAt(pages, start, k)
    && forall v :: v in offsets <==> exists i :: 0 <= i < k && pages[i].next == Some(v)
  }

  lemma PageItems(pages: seq<Page>, start: Option<string>, k: nat, items: seq<SourceRecord>, offset: Option<string>, offsets: set<string>)
    requires k < |pages| && Reading(pages, start, k, items, offset, offsets)
    ensures |items| == |Externals(ItemsOf(pages[..k]))|
    ensures Agree(items + pages[k].items) <==> Agree(ItemsOf(pages[..k + 1]))
    ensures forall r :: r in items + pages[k].items <==> r in ItemsOf(pages[..k + 1])
  {
    assert pages[..k + 1][..k] == pages[..k];
    DistinctCount(items, ItemsOf(pages[..k]));
    SameAgreement(items + pages[k].items, ItemsOf(pages[..k + 1]));
  }

  /** The checks of the loop body around one page. */
  method ReadPage(
    pages: seq<Page>, start: Option<string>, limits: Limits, k: nat, items: seq<SourceRecord>, offset: Option<string>, offsets: set<string>)
    returns (res: Result<seq<SourceRecord>>)
    requires k < |pages| && Reading(pages, start, k, items, offset, offsets)
    ensures res.Ok? <==> PageOk(pages, start, limits, k)
    ensures res.Ok? ==> Collects(res.value, pages[..k + 1]) && |res.value| <= limits.maxItems
  {
    if offset.Some? && !limits.offsetParameter {
      return Err(InvalidInput);
    }
    var page := pages[k];
    PageItems(pages, start, k, items, offset, offsets);
    if |page.items| + |items| > limits.maxItems {
      return Err(InvalidOutput);
    }
    var merged := MergeItems(items, page.items);
    if merged.Err? {
      return Err(InvalidOutput);
    }
    if page.hasMore {
      NewOffset(pages, start, k, offset, offsets);
      if page.next.None? || page.next.value == "" || page.next == offset || page.next.value in offsets || page.items == [] {
        return Err(InvalidOutput);
      }
      if !limits.offsetParameter {
        return Err(InvalidInput);
      }
    }
    res := merged;
    assert forall r :: r in res.value <==> r in items + page.items;
  }

  lemma NewOffset(pages: seq<Page>, start: Option<string>, k: nat, offset: Option<string>, offsets: set<string>)
    requires k < |pages| && forall v :: v in offsets <==> exists i :: 0 <= i < k && pages[i].next == Some(v)
    ensures pages[k].next.Some? ==>
              (pages[k].next.value in offsets <==> exists i :: 0 <= i < k && pages[i].next == pages[k].next)
  {
    if pages[k].next.Some? { assert pages[k].next == Some(pages[k].next.value); }
  }

  predicate AllMore(pages: seq<Page>, n: nat)
    requires n <= |pages|
  {
    forall k :: 0 <= k < n ==> pages[k].hasMore
  }

  lemma DepthFrom(pages: seq<Page>, maxPages: nat, k: nat)
    requires 1 <= maxPages <= |pages| && k < maxPages && AllMore(pages, k)
    ensures k < Depth(pages, maxPages)
    ensures !pages[k].hasMore || k + 1 == maxPages ==> Depth(pages, maxPages) == k + 1
  {
  }

  lemma AllOkNext(pages: seq<Page>, start: Option<string>, limits: Limits, k: nat)
    requires k < |pages| && AllOk(pages, start, limits, k)
    ensures AllOk(pages, start, limits, k + 1) <==> PageOk(pages, start, limits, k)
  {
  }

  lemma NotAllOk(pages: seq<Page>, start: Option<string>, limits: Limits, k: nat, n: nat)
    requires k < n <= |pages| && !PageOk(pages, start, limits, k)
    ensures !AllOk(pages, start, limits, n)
  {
  }

  /** What one more page decides. */
  lemma Judge(pages: seq<Page>, start: Option<string>, limits: Limits, k: nat, good: bool)
    requires 1 <= limits.maxPages <= |pages| && k < limits.maxPages && AllMore(pages, k) && AllOk(pages, start, limits, k)
    requires good <==> PageOk(pages, start, limits, k)
    ensures k < Depth(pages, limits.maxPages)
    ensures !good ==> !Succeeds(pages, start, limits)
    ensures good && (!pages[k].hasMore || k + 1 == limits.maxPages) ==>
              Succeeds(pages, start, limits) && Depth(pages, limits.maxPages) == k + 1
  {
    DepthFrom(pages, limits.maxPages, k);
    AllOkNext(pages, start, limits, k);
    if !good { NotAllOk(pages, start, limits, k, Depth(pages, limits.maxPages)); }
  }

  lemma MoveOn(
    pages: seq<Page>, start: Option<string>, limits: Limits, k: nat, items: seq<SourceRecord>, offsets: set<string>)
    requires k < |pages| && PageOk(pages, start, limits, k) && pages[k].hasMore
    requires Collects(items, pages[..k + 1]) && forall v :: v in offsets <==> exists i :: 0 <= i < k && pages[i].next == Some(v)
    ensures pages[k].next.Some?
    ensures Reading(pages, start, k + 1, items, pages[k].next, offsets + {pages[k].next.value})
  {
    assert Advances(pages, start, limits, k);
    forall v | v in offsets + {pages[k].next.value} ensures exists i :: 0 <= i < k + 1 && pages[i].next == Some(v) {
      if v in offsets {
        var i :| 0 <= i < k && pages[i].next == Some(v);
      } else {
        assert pages[k].next == Some(v);
      }
    }
  }

  /** The page loop of `_fetch`. */
  method FetchPages(pages: seq<Page>, start: Option<string>, limits: Limits) returns (res: Result<Fetched>, read: nat)
    requires 1 <= limits.maxPages <= |pages|
    ensures res.Ok? <==> Succeeds(pages, start, limits)
    ensures if res.Ok? then read == Depth(pages, limits.maxPages) else read < Depth(pages, limits.maxPages)
    ensures res.Ok? ==> Collects(res.value.items, pages[..read]) && |res.value.items| <= limits.maxItems
    ensures res.Ok? ==> res.value.hasMore == pages[read - 1].hasMore
    ensures res.Ok? ==> res.value.offset == if res.value.hasMore then pages[read - 1].next else None
  {
    var items: seq<SourceRecord> := [];
    var offset, offsets: set<string>, hasMore := start, {}, false;
    read := 0;
    while read < limits.maxPages
      invariant read <= limits.maxPages && (read > 0 ==> hasMore) && |items| <= limits.maxItems
      invariant Reading(pages, start, read, items, offset, offsets)
      invariant AllMore(pages, read) && AllOk(pages, start, limits, read)
    {
      var merged := ReadPage(pages, start, limits, read, items, offset, offsets);
      Judge(pages, start, limits, read, merged.Ok?);
      AllOkNext(pages, start, limits, read);
      if merged.Err? {
        return Err(merged.code), read;
      }
      items := merged.value;
      hasMore := pages[read].hasMore;
      if !hasMore {
        read := read + 1;
        return Ok(Fetched(items, false, None)), read;
      }
      MoveOn(pages, start, limits, read, items, offsets);
      offset := pages[read].next;
      offsets := offsets + {offset.value};
      read := read + 1;
    }
    res := Ok(Fetched(items, hasMore, offset));
  }

  lemma DistinctCount(items: seq<SourceRecord>, all: seq<SourceRecord>)
    requires DistinctItems(items) && forall r :: r in items <==> r in all
    ensures |items| == |Externals(all)|
  {
    var ids := seq(|items|, k requires 0 <= k < |items| => items[k].externalId);
    DistinctSize(ids);
    forall r | r in all ensures r.externalId in ids {
      var k :| 0 <= k < |items| && items[k] == r;
      assert ids[k] == r.externalId;
    }
    forall id | id in ids ensures exists r :: r in all && r.externalId == id {
      var k :| 0 <= k < |ids| && ids[k] == id;
      assert items[k] in all;
    }
    assert ToSet(ids) == Externals(all);
  }

  lemma SameAgreement(a: seq<SourceRecord>, b: seq<SourceRecord>)
    requires forall r :: r in a <==> r in b
    ensures Agree(a) <==> Agree(b)
  {
  }

  method MergeItems(items: seq<SourceRecord>, page: seq<SourceRecord>) returns (res: Result<seq<SourceRecord>>)
    requires DistinctItems(items)
    ensures res.Ok? <==> Agree(items + page)
    ensures res.Ok? ==> DistinctItems(res.value) && |res.value| <= |items| + |page|
    ensures res.Ok? ==> forall r :: r in res.value <==> r in items || r in page
  {
    var merged := items;
    for n := 0 to |page|
      invariant DistinctItems(merged) && |merged| <= |items| + n
      invariant forall r :: r in merged <==> r in items || r in page[..n]
    {
      var record := page[n];
      assert page[..n + 1] == page[..n] + [record];
      var i := ItemPlace(merged, record.externalId);
      if i < |merged| && merged[i] != record {
        assert merged[i] in items + page && record in items + page;
        return Err(InvalidOutput);
      }
      if i == |merged| {
        merged := merged + [record];
      } else {
        assert record in merged;
      }
    }
    assert page[..|page|] == page;
    res := Ok(merged);
  }

  // ---- the offsets asked for ----

  function Requested(pages: seq<Page>, start: Option<string>, n: nat): (r: seq<Option<string>>)
    requires n <= |pages|
    ensures |r| == n && forall k :: 0 <= k < n ==> r[k] == OffsetAt(pages, start, k)
  {
    seq(n, k requires 0 <= k < n => OffsetAt(pages, start, k))
  }

  /** Exactly when a successful fetch asks for no offset twice: when none of its pages leads back to the start. */
  lemma NothingAskedTwice(pages: seq<Page>, start: Option<string>, limits: Limits)
    requires 1 <= limits.maxPages <= |pages| && Succeeds(pages, start, limits)
    ensures var n := Depth(pages, limits.maxPages);
            Distinct(Requested(pages, start, n)) <==> forall k :: 0 <= k < n - 1 ==> pages[k].next != start
  {
    var n := Depth(pages, limits.maxPages);
    var asked := Requested(pages, start, n);
    if Distinct(asked) {
      forall k | 0 <= k < n - 1 ensures pages[k].next != start { assert asked[k + 1] != asked[0]; }
    }
    if forall k :: 0 <= k < n - 1 ==> pages[k].next != start {
      forall i, j | 0 <= i < j < n ensures asked[i] != asked[j] {
        assert PageOk(pages, start, limits, j - 1) && Advances(pages, start, limits, j - 1);
        if i == 0 { assert pages[j - 1].next != start; } else { assert pages[i - 1].next != pages[j - 1].next; }
      }
    }
  }

  function Item(external: string): SourceRecord {
    SourceRecord(
      external, "source", external, 1, ("", ""), "", "", "url", "publisher", None, None, 0, None, "rights", UnknownTime,
      Scope(Production, None))
  }

  lemma FirstItems(pages: seq<Page>, a: SourceRecord, b: SourceRecord, c: SourceRecord)
    requires |pages| == 3 && pages[0].items == [a] && pages[1].items == [b] && pages[2].items == [c]
    ensures ItemsOf(pages[..0]) == [] && ItemsOf(pages[..1]) == [a] && ItemsOf(pages[..2]) == [a, b] && ItemsOf(pages[..3]) == [a, b, c]
  {
    assert pages[..1][..0] == [] && pages[..2][..1] == pages[..1] && pages[..3][..2] == pages[..2];
    assert ItemsOf(pages[..1]) == [] + [a];
    assert ItemsOf(pages[..2]) == [a] + [b];
  }

  lemma ThreeItems(x: string, y: string, z: string)
    requires x != y && y != z && x != z
    ensures |Externals([])| == 0 && |Externals([Item(x)])| == 1 && |Externals([Item(x), Item(y)])| == 2
    ensures Agree([Item(x)]) && Agree([Item(x), Item(y)]) && Agree([Item(x), Item(y), Item(z)])
  {
    assert Externals([]) == {} && Externals([Item(x)]) == {x} && Externals([Item(x), Item(y)]) == {x, y};
  }

  /** Pages that lead from offset "a" to "b" and back to "a": accepted, and "a" is asked for twice. */
  lemma StartComesBack(x: string, y: string, z: string)
    requires x != y && y != z && x != z
    ensures var pages := [Page([Item(x)], true, Some("b")), Page([Item(y)], true, Some("a")), Page([Item(z)], false, None)];
            var limits := Limits(true, 3, 3);
            && Succeeds(pages, Some("a"), limits) && Depth(pages, 3) == 3
            && Requested(pages, Some("a"), 3) == [Some("a"), Some("b"), Some("a")]
  {
    var pages := [Page([Item(x)], true, Some("b")), Page([Item(y)], true, Some("a")), Page([Item(z)], false, None)];
    var limits := Limits(true, 3, 3);
    FirstItems(pages, Item(x), Item(y), Item(z));
    ThreeItems(x, y, z);
    assert "a"[0] != "b"[0];
    assert PageOk(pages, Some("a"), limits, 0);
    assert PageOk(pages, Some("a"), limits, 1);
    assert PageOk(pages, Some("a"), limits, 2);
  }

  // ---- revisions ----

  /** The committed revisions: the record table of the source. */
  type Records = map<RecordKey, SourceRecord>

  predicate SameIdentity(a: SourceRecord, b: SourceRecord) {
    a.sourceId == b.sourceId && a.externalId == b.externalId && a.recordId == b.recordId && a.publisher == b.publisher
    && a.rights == b.rights && a.scope == b.scope
  }

  /** The fields whose change makes a new revision. */
  predicate SameEvidence(a: SourceRecord, b: SourceRecord) {
    a.contentHash == b.contentHash && a.title == b.title && a.excerpt == b.excerpt && a.url == b.url && a.publishedAt == b.publishedAt
  }

  /** The latest committed revision of a family. */
  ghost predicate IsLatest(records: Records, f: Family, latest: Option<SourceRecord>) {
    if latest.None? then forall k :: k in records ==> FamilyOf(records[k]) != f
    else
      && KeyOf(latest.value) in records && records[KeyOf(latest.value)] == latest.value && FamilyOf(latest.value) == f
      && forall k :: k in records && FamilyOf(records[k]) == f ==> records[k].revision <= latest.value.revision
  }

  /** What a candidate becomes against the committed history: itself, the old record, or the next revision. */
  function Resolve(latest: Option<SourceRecord>, candidate: SourceRecord): Result<SourceRecord> {
    if latest.None? then Ok(candidate)
    else
      var known := latest.value;
      if !Verified(known) || !SameIdentity(known, candidate) || known.discoveredAt > candidate.discoveredAt then Err(InvalidOutput)
      else if SameEvidence(known, candidate) then Ok(known)
      else Ok(candidate.(revision := known.revision + 1))
  }

  /** `_insert_record`: a new row, or nothing for an identical one. */
  function InsertRecord(records: Records, r: SourceRecord): Result<Records> {
    if exists k :: k in records && FamilyOf(records[k]) == FamilyOf(r) && records[k].recordId != r.recordId then Err(InvalidInput)
    else if KeyOf(r) in records then if records[KeyOf(r)] != r then Err(InvalidInput) else Ok(records)
    else Ok(records[KeyOf(r) := r])
  }

  function InsertAll(records: Records, rs: seq<SourceRecord>): Result<Records>
    decreases |rs|
  {
    if rs == [] then Ok(records)
    else
      var next := InsertRecord(records, rs[0]);
      if next.Err? then next else InsertAll(next.value, rs[1..])
  }

  datatype Db = Db(records: Records, checkpoint: Option<Checkpoint>)

  /** `persist_batch`: compare-and-swap of the checkpoint, with every record or none. */
  function Persist(db: Db, b: Batch, expected: Option<Checkpoint>): Result<Db> {
    if db.checkpoint != expected then Err(RevisionMismatch)
    else
      var records := InsertAll(db.records, b.records);
      if records.Err? then Err(records.code) else Ok(Db(records.value, Some(b.checkpoint)))
  }

  function MaxTime(mark: Option<Time>, rs: seq<SourceRecord>): Option<Time> {
    if rs == [] then mark
    else
      var before, last := MaxTime(mark, rs[..|rs| - 1]), rs[|rs| - 1];
      if last.quality != ValidTime || last.publishedAt.None? then before
      else if before.Some? && before.value >= last.publishedAt.value then before
      else last.publishedAt
  }

  lemma {:induction false} MaxTimeKeeps(mark: Option<Time>, rs: seq<SourceRecord>)
    ensures mark.Some? ==> MaxTime(mark, rs).Some? && MaxTime(mark, rs).value >= mark.value
  {
    if rs != [] { MaxTimeKeeps(mark, rs[..|rs| - 1]); }
  }

  // ---- concurrent cycles ----

  /** A cycle in flight: the checkpoint it read, its candidates still to resolve, and what they have become. */
  datatype Cycle = Cycle(expected: Option<Checkpoint>, waiting: seq<SourceRecord>, resolved: seq<SourceRecord>)

  datatype System = System(db: Db, cycles: seq<Cycle>)

  datatype Action =
    | Begin(candidates: seq<SourceRecord>)
    | Read(cycle: nat, latest: Option<SourceRecord>)
    | Commit(cycle: nat, cursor: Option<string>, discovered: Time, next: Time, more: bool)
    | Abandon(cycle: nat)

  /** What `_record` builds of a page item: revision 1, verified, under a record ID that its family determines. */
  predicate Candidate(r: SourceRecord, idOf: Family -> string) {
    r.revision == 1 && Verified(r) && r.recordId == idOf(FamilyOf(r))
  }

  ghost predicate Enabled(s: System, a: Action, idOf: Family -> string) {
    match a
    case Begin(candidates) => forall r :: r in candidates ==> Candidate(r, idOf)
    case Read(i, latest) =>
      i < |s.cycles| && s.cycles[i].waiting != [] && IsLatest(s.db.records, FamilyOf(s.cycles[i].waiting[0]), latest)
    case Commit(i, _, _, _, _) => i < |s.cycles| && s.cycles[i].waiting == []
    case Abandon(i) => i < |s.cycles|
  }

  function Drop(s: System, i: nat): System
    requires i < |s.cycles|
  {
    s.(cycles := s.cycles[..i] + s.cycles[i + 1..])
  }

  /** A cycle whose resolution or commit fails ends; the tables stay as they are. */
  ghost function Next(s: System, a: Action, idOf: Family -> string): System
    requires Enabled(s, a, idOf)
  {
    match a
    case Begin(candidates) => s.(cycles := s.cycles + [Cycle(s.db.checkpoint, candidates, [])])
    case Read(i, latest) =>
      var c := s.cycles[i];
      var r := Resolve(latest, c.waiting[0]);
      if r.Err? then Drop(s, i)
      else s.(cycles := s.cycles[i := c.(waiting := c.waiting[1..], resolved := c.resolved + [r.value])])
    case Commit(i, cursor, discovered, next, more) =>
      var c := s.cycles[i];
      var mark := if c.expected.Some? then c.expected.value.watermark else None;
      var b := Batch(c.resolved, Checkpoint(cursor, MaxTime(mark, c.resolved), discovered, next, more));
      var r := Persist(s.db, b, c.expected);
      if r.Err? then Drop(s, i) else Drop(s, i).(db := r.value)
    case Abandon(i) => Drop(s, i)
  }

  ghost predicate Feasible(s: System, run: seq<Action>, idOf: Family -> string)
    decreases |run|
  {
    run == [] || (Enabled(s, run[0], idOf) && Feasible(Next(s, run[0], idOf), run[1..], idOf))
  }

  ghost function After(s: System, run: seq<Action>, idOf: Family -> string): System
    requires Feasible(s, run, idOf)
    decreases |run|
  {
    if run == [] then s else After(Next(s, run[0], idOf), run[1..], idOf)
  }

  const Start := System(Db(map[], None), [])

  /** The revision before a committed or resolved one is committed, and says something else. */
  predicate Follows(records: Records, r: SourceRecord) {
    r.revision == 1 || (r.revision > 1 && (r.recordId, r.revision - 1) in records
      && !SameEvidence(records[(r.recordId, r.revision - 1)], r))
  }

  ghost predicate RecordsOk(records: Records, idOf: Family -> string) {
    forall k :: k in records ==>
      KeyOf(records[k]) == k && records[k].recordId == idOf(FamilyOf(records[k])) && Follows(records, records[k])
  }

  predicate Ready(records: Records, r: SourceRecord, idOf: Family -> string) {
    r.recordId == idOf(FamilyOf(r)) && Follows(records, r)
  }

  ghost predicate CycleOk(records: Records, c: Cycle, idOf: Family -> string) {
    && (forall r :: r in c.waiting ==> Candidate(r, idOf))
    && (forall r :: r in c.resolved ==> Ready(records, r, idOf))
  }

  ghost predicate Invariant(s: System, idOf: Family -> string) {
    && RecordsOk(s.db.records, idOf)
    && forall i :: 0 <= i < |s.cycles| ==> CycleOk(s.db.records, s.cycles[i], idOf)
  }

  predicate Grows(a: Records, b: Records) { forall k :: k in a ==> k in b && b[k] == a[k] }

  lemma InsertKeeps(records: Records, r: SourceRecord, idOf: Family -> string)
    requires RecordsOk(records, idOf) && Ready(records, r, idOf) && InsertRecord(records, r).Ok?
    ensures RecordsOk(InsertRecord(records, r).value, idOf) && Grows(records, InsertRecord(records, r).value)
  {
    var after := InsertRecord(records, r).value;
    forall k | k in after
      ensures KeyOf(after[k]) == k && after[k].recordId == idOf(FamilyOf(after[k])) && Follows(after, after[k])
    {
      if k in records { assert Follows(records, records[k]); }
    }
  }

  lemma {:induction false} InsertAllKeeps(records: Records, rs: seq<SourceRecord>, idOf: Family -> string)
    requires RecordsOk(records, idOf) && (forall r :: r in rs ==> Ready(records, r, idOf)) && InsertAll(records, rs).Ok?
    ensures RecordsOk(InsertAll(records, rs).value, idOf) && Grows(records, InsertAll(records, rs).value)
    decreases |rs|
  {
    if rs != [] {
      assert rs[0] in rs;
      InsertKeeps(records, rs[0], idOf);
      var next := InsertRecord(records, rs[0]).value;
      forall r | r in rs[1..] ensures Ready(next, r, idOf) { assert Ready(records, r, idOf); }
      InsertAllKeeps(next, rs[1..], idOf);
    }
  }

  lemma CyclesStayOk(a: Records, b: Records, c: Cycle, idOf: Family -> string)
    requires Grows(a, b) && CycleOk(a, c, idOf)
    ensures CycleOk(b, c, idOf)
  {
    forall r | r in c.resolved ensures Ready(b, r, idOf) { assert Ready(a, r, idOf); }
  }

  lemma ReadKeeps(records: Records, c: Cycle, latest: Option<SourceRecord>, idOf: Family -> string)
    requires RecordsOk(records, idOf) && CycleOk(records, c, idOf) && c.waiting != []
    requires IsLatest(records, FamilyOf(c.waiting[0]), latest) && Resolve(latest, c.waiting[0]).Ok?
    ensures CycleOk(records, c.(waiting := c.waiting[1..], resolved := c.resolved + [Resolve(latest, c.waiting[0]).value]), idOf)
  {
    var candidate, r := c.waiting[0], Resolve(latest, c.waiting[0]).value;
    assert candidate in c.waiting;
    assert Ready(records, r, idOf) by {
      if latest.Some? { assert Follows(records, latest.value) && KeyOf(latest.value) in records; }
    }
  }

  lemma StepKeeps(s: System, a: Action, idOf: Family -> string)
    requires Invariant(s, idOf) && Enabled(s, a, idOf)
    ensures Invariant(Next(s, a, idOf), idOf) && Grows(s.db.records, Next(s, a, idOf).db.records)
  {
    var s' := Next(s, a, idOf);
    match a {
      case Begin(candidates) =>
      case Read(i, latest) => if Resolve(latest, s.cycles[i].waiting[0]).Ok? { ReadKeeps(s.db.records, s.cycles[i], latest, idOf); }
      case Commit(i, _, _, _, _) =>
        if s'.db != s.db { InsertAllKeeps(s.db.records, s.cycles[i].resolved, idOf); }
        forall j | 0 <= j < |s'.cycles| ensures CycleOk(s'.db.records, s'.cycles[j], idOf) {
          CyclesStayOk(s.db.records, s'.db.records, s.cycles[if j < i then j else j + 1], idOf);
        }
      case Abandon(i) =>
    }
  }

  predicate NotBehind(a: Option<Checkpoint>, b: Option<Checkpoint>) {
    a.Some? && a.value.watermark.Some? ==>
      b.Some? && b.value.watermark.Some? && b.value.watermark.value >= a.value.watermark.value
  }

  lemma StepWatermark(s: System, a: Action, idOf: Family -> string)
    requires Enabled(s, a, idOf)
    ensures NotBehind(s.db.checkpoint, Next(s, a, idOf).db.checkpoint)
  {
    if a.Commit? {
      var c := s.cycles[a.cycle];
      MaxTimeKeeps(if c.expected.Some? then c.expected.value.watermark else None, c.resolved);
    }
  }

  lemma {:induction false} RunKeeps(s: System, run: seq<Action>, idOf: Family -> string)
    requires Invariant(s, idOf) && Feasible(s, run, idOf)
    ensures var s' := After(s, run, idOf);
            Invariant(s', idOf) && Grows(s.db.records, s'.db.records) && NotBehind(s.db.checkpoint, s'.db.checkpoint)
    decreases |run|
  {
    if run != [] {
      StepKeeps(s, run[0], idOf);
      StepWatermark(s, run[0], idOf);
      RunKeeps(Next(s, run[0], idOf), run[1..], idOf);
    }
  }

  // ---- main results ----

  lemma {:induction false} Contiguous(records: Records, idOf: Family -> string, id: string, r: nat, n: nat)
    requires RecordsOk(records, idOf) && (id, r) in records && 1 <= n <= r
    ensures (id, n) in records
    decreases r - n
  {
    if n < r {
      Contiguous(records, idOf, id, r, n + 1);
      assert Follows(records, records[(id, n + 1)]);
    }
  }

  /** With any concurrent cycles: an item's committed revisions are exactly 1 to its latest, and adjacent ones differ
      in content, title, excerpt, link or publication time. */
  lemma RevisionsContiguous(run: seq<Action>, idOf: Family -> string, id: string, r: nat)
    requires Feasible(Start, run, idOf) && (id, r) in After(Start, run, idOf).db.records
    ensures var records := After(Start, run, idOf).db.records;
            && r >= 1 && (forall n :: 1 <= n <= r ==> (id, n) in records)
            && (r > 1 ==> !SameEvidence(records[(id, r - 1)], records[(id, r)]))
  {
    RunKeeps(Start, run, idOf);
    var records := After(Start, run, idOf).db.records;
    assert Follows(records, records[(id, r)]);
    forall n | 1 <= n <= r ensures (id, n) in records { Contiguous(records, idOf, id, r, n); }
  }

  /** Stored revisions never change, and the durable watermark never moves backwards. */
  lemma HistoryImmutable(run: seq<Action>, more: seq<Action>, idOf: Family -> string)
    requires Feasible(Start, run, idOf) && Feasible(After(Start, run, idOf), more, idOf)
    ensures var s, s' := After(Start, run, idOf), After(After(Start, run, idOf), more, idOf);
            Grows(s.db.records, s'.db.records) && NotBehind(s.db.checkpoint, s'.db.checkpoint)
  {
    RunKeeps(Start, run, idOf);
    RunKeeps(After(Start, run, idOf), more, idOf);
  }

  // ---- the repository ----

  class SourceRepository {
    var records: Records
    var checkpoint: Option<Checkpoint>

    constructor ()
      ensures Tables() == Db(map[], None)
    {
      records, checkpoint := map[], None;
    }

    ghost function Tables(): Db
      reads this
    {
      Db(records, checkpoint)
    }

    /** `persist_batch`; on success, how many records were new. */
    method PersistBatch(b: Batch, expected: Option<Checkpoint>) returns (res: Result<nat>)
      modifies this
      ensures res.Ok? <==> Persist(old(Tables()), b, expected).Ok?
      ensures res.Ok? ==> Tables() == Persist(old(Tables()), b, expected).value && |records| == |old(records)| + res.value
      ensures res.Err? ==> Tables() == old(Tables()) && Persist(old(Tables()), b, expected) == Err(res.code)
    {
      if checkpoint != expected {
        return Err(RevisionMismatch);
      }
      var saved, inserted := records, 0;
      var i := 0;
      while i < |b.records|
        invariant i <= |b.records| && |records| == |saved| + inserted && checkpoint == old(checkpoint)
        invariant InsertAll(saved, b.records) == InsertAll(records, b.records[i..])
      {
        var r := b.records[i];
        assert b.records[i..][0] == r && b.records[i..][1..] == b.records[i + 1..];
        if exists k :: k in records && FamilyOf(records[k]) == FamilyOf(r) && records[k].recordId != r.recordId {
          records := saved;
          return Err(InvalidInput);
        }
        if KeyOf(r) in records {
          if records[KeyOf(r)] != r {
            records := saved;
            return Err(InvalidInput);
          }
        } else {
          records := records[KeyOf(r) := r];
          inserted := inserted + 1;
        }
        i := i + 1;
      }
      checkpoint := Some(b.checkpoint);
      res := Ok(inserted);
    }
  }
}
