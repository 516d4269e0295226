module Replay {
  /** Finite append-only replay (`ingestion/replay.py`).

  `stable_id` is injective, so the digest of a prefix is represented by the prefix itself. */

  import opened Common
  import opened Contracts
  import opened Revisions

  datatype GapState = NoGap | PaginationLimit | RetentionExceeded | GapDegraded | GapUnknown

  /** The cursor text: empty, not in three parts or without a number, or its version, offset and prefix digest. */
  datatype Cursor = NoCursor | Unreadable | Position(version: string, offset: int, prefix: seq<SourceRecord>)

  datatype Checkpoint = Checkpoint(
    sourceId: string, cursor: Cursor, watermark: Option<Time>, lastSuccessAt: Time, expectedNextAt: Time, gap: GapState)

  datatype Batch = Batch(records: seq<SourceRecord>, checkpoint: Checkpoint, hasMore: bool)

  datatype Settings = Settings(sourceId: string, pageSize: nat, maxPages: nat, retentionStart: Option<Time>, pollSeconds: nat)

  predicate WithinBounds(s: Settings, n: nat) {
    1 <= s.pageSize <= 500 && 1 <= s.maxPages <= 10 && s.pollSeconds >= 1 && n <= 100_000
  }

  // ---- the corpus ----

  predicate Acceptable(r: SourceRecord, sourceId: string) {
    Verified(r) && r.sourceId == sourceId && r.scope.provenance == Fixture
  }

  /** One identity for two contents, one record ID for two families, or one family under two record IDs. */
  predicate Conflict(a: SourceRecord, b: SourceRecord) {
    || (KeyOf(a) == KeyOf(b) && a != b)
    || (a.recordId == b.recordId && FamilyOf(a) != FamilyOf(b))
    || (FamilyOf(a) == FamilyOf(b) && a.recordId != b.recordId)
  }

  predicate Consistent(records: seq<SourceRecord>, sourceId: string) {
    && (forall r :: r in records ==> Acceptable(r, sourceId))
    && forall a, b :: a in records && b in records ==> !Conflict(a, b)
  }

  predicate HasKey(records: seq<SourceRecord>, k: RecordKey) { exists r :: r in records && KeyOf(r) == k }

  /** Every revision at its first arrival. */
  function Corpus(records: seq<SourceRecord>): seq<SourceRecord> {
    if records == [] then []
    else
      var before, last := Corpus(records[..|records| - 1]), records[|records| - 1];
      if HasKey(before, KeyOf(last)) then before else before + [last]
  }

  predicate DistinctIdentities(records: seq<SourceRecord>) {
    forall i, j :: 0 <= i < j < |records| ==> KeyOf(records[i]) != KeyOf(records[j])
  }

  lemma CorpusGrows(before: seq<SourceRecord>, last: SourceRecord)
    requires DistinctIdentities(before) && !HasKey(before, KeyOf(last))
    ensures DistinctIdentities(before + [last])
  {
    forall i | 0 <= i < |before| ensures KeyOf(before[i]) != KeyOf(last) { assert before[i] in before; }
  }

  /** The corpus has the input's records, all of them, each revision once. */
  lemma {:induction false} CorpusHolds(records: seq<SourceRecord>, sourceId: string)
    requires Consistent(records, sourceId)
    ensures DistinctIdentities(Corpus(records)) && forall r :: r in Corpus(records) <==> r in records
  {
    if records != [] {
      var rest, last := records[..|records| - 1], records[|records| - 1];
      assert forall r :: r in records <==> r in rest || r == last;
      CorpusHolds(rest, sourceId);
      if HasKey(Corpus(rest), KeyOf(last)) {
        var r :| r in Corpus(rest) && KeyOf(r) == KeyOf(last);
        assert !Conflict(r, last);
      } else {
        CorpusGrows(Corpus(rest), last);
      }
    }
  }

  /** Records appended to the input only append to the corpus. */
  lemma {:induction false} CorpusExtends(records: seq<SourceRecord>, more: seq<SourceRecord>)
    ensures Corpus(records) <= Corpus(records + more)
  {
    if more == [] {
      assert records + more == records;
    } else {
      CorpusExtends(records, more[..|more| - 1]);
      assert (records + more)[..|records + more| - 1] == records + more[..|more| - 1];
    }
  }

  // ---- one fetch ----

  predicate After(t: Option<Time>, now: Time) { t.Some? && t.value > now }

  /** A record dated in the future is handed out quarantined. */
  function Mark(r: SourceRecord, now: Time): SourceRecord {
    if After(r.publishedAt, now) || After(r.occurredAt, now) || After(r.availableAt, now) || r.discoveredAt > now
    then r.(quality := FutureQuarantined) else r
  }

  function MarkAll(records: seq<SourceRecord>, now: Time): (r: seq<SourceRecord>)
    ensures |r| == |records| && forall i :: 0 <= i < |r| ==> r[i] == Mark(records[i], now)
  {
    seq(|records|, i requires 0 <= i < |records| => Mark(records[i], now))
  }

  function Newer(mark: Option<Time>, t: Time): Option<Time> { if mark.Some? && mark.value >= t then mark else Some(t) }

  function Watermark(mark: Option<Time>, records: seq<SourceRecord>, now: Time): Option<Time> {
    if records == [] then mark
    else
      var before, last := Watermark(mark, records[..|records| - 1], now), records[|records| - 1];
      if last.publishedAt.Some? && last.publishedAt.value <= now then Newer(before, last.publishedAt.value) else before
  }

  /** The latest publication time up to now of what was handed out, and never below the mark it starts from. */
  lemma {:induction false} WatermarkIsLatest(mark: Option<Time>, records: seq<SourceRecord>, now: Time)
    ensures var w := Watermark(mark, records, now);
            && (mark.Some? ==> w.Some? && w.value >= mark.value)
            && (forall r :: r in records && r.publishedAt.Some? && r.publishedAt.value <= now ==> w.Some? && w.value >= r.publishedAt.value)
            && (w == mark || exists r :: r in records && r.publishedAt == w && w.value <= now)
  {
    if records != [] {
      WatermarkIsLatest(mark, records[..|records| - 1], now);
      assert forall r :: r in records <==> r in records[..|records| - 1] || r == records[|records| - 1];
    }
  }

  function Step(s: Settings): nat { s.pageSize * s.maxPages }

  /** Where a cursor resumes, if it is this corpus's cursor. */
  function Offset(corpus: seq<SourceRecord>, c: Option<Checkpoint>, sourceId: string): Result<nat> {
    if c.None? then Ok(0)
    else if c.value.sourceId != sourceId then Err(InvalidInput)
    else
      match c.value.cursor
      case NoCursor => Ok(0)
      case Unreadable => Err(InvalidInput)
      case Position(version, offset, prefix) =>
        if version != "v1" || !(0 <= offset <= |corpus|) || prefix != corpus[..offset] then Err(InvalidInput) else Ok(offset)
  }

  function End(corpus: seq<SourceRecord>, step: nat, offset: nat): nat {
    if offset + step <= |corpus| then offset + step else |corpus|
  }

  function Gap(corpus: seq<SourceRecord>, s: Settings, c: Option<Checkpoint>, end: nat): GapState {
    if s.retentionStart.Some?
       && (c.None? || c.value.watermark.None? || c.value.watermark.value < s.retentionStart.value || c.value.gap == RetentionExceeded)
    then RetentionExceeded
    else if end < |corpus| then PaginationLimit
    else NoGap
  }

  function Fetched(corpus: seq<SourceRecord>, s: Settings, c: Option<Checkpoint>, now: Time): Result<Batch> {
    var at := Offset(corpus, c, s.sourceId);
    if at.Err? then Err(at.code)
    else if at.value > |corpus| then Err(InvalidInput)
    else
      var end := End(corpus, Step(s), at.value);
      var records := MarkAll(corpus[at.value..end], now);
      var mark := if c.Some? then c.value.watermark else None;
      Ok(Batch(
        records,
        Checkpoint(s.sourceId, Position("v1", end, corpus[..end]), Watermark(mark, records, now), now, now + s.pollSeconds,
                   Gap(corpus, s, c, end)),
        end < |corpus|))
  }

  // ---- replaying until nothing remains ----

  /** Pages of at most `size` records, and at least one even for an empty batch. */
  function Pages(n: nat, size: nat): (p: nat)
    requires size >= 1
    ensures p >= 1 && p * size >= n
  {
    if n <= size then 1 else Pages(n - size, size) + 1
  }

  type Fetcher = (Option<Checkpoint>, Time) -> Result<Batch>

  function FetcherOf(corpus: seq<SourceRecord>, s: Settings): Fetcher { (c, now) => Fetched(corpus, s, c, now) }

  /** A client that fetches at the given times, each time with the checkpoint it last got, while more remains. */
  function Batches(fetch: Fetcher, c: Option<Checkpoint>, clock: seq<Time>): seq<Batch>
    decreases |clock|
  {
    if clock == [] || fetch(c, clock[0]).Err? then []
    else
      var b := fetch(c, clock[0]).value;
      [b] + if b.hasMore then Batches(fetch, Some(b.checkpoint), clock[1..]) else []
  }

  function Records(bs: seq<Batch>): seq<SourceRecord> {
    if bs == [] then [] else bs[0].records + Records(bs[1..])
  }

  /** Handed out as it stands in the corpus, or quarantined. */
  predicate Replays(out: seq<SourceRecord>, corpus: seq<SourceRecord>) {
    && |out| == |corpus|
    && forall i :: 0 <= i < |out| ==> out[i] == corpus[i] || out[i] == corpus[i].(quality := FutureQuarantined)
  }

  predicate Resumes(corpus: seq<SourceRecord>, c: Option<Checkpoint>, s: Settings, offset: nat) {
    Offset(corpus, c, s.sourceId) == Ok(offset) && offset <= |corpus|
  }

  /** A fetch at an offset hands out the next stretch of the corpus and a checkpoint for what follows it. */
  ghost predicate Advances(r: Result<Batch>, corpus: seq<SourceRecord>, s: Settings, step: nat, offset: nat)
    requires offset <= |corpus|
  {
    && r.Ok? && Replays(r.value.records, corpus[offset..End(corpus, step, offset)])
    && Resumes(corpus, Some(r.value.checkpoint), s, End(corpus, step, offset))
    && (r.value.hasMore <==> End(corpus, step, offset) < |corpus|)
  }

  lemma FetchAdvances(corpus: seq<SourceRecord>, s: Settings, c: Option<Checkpoint>, now: Time, offset: nat)
    requires Resumes(corpus, c, s, offset)
    ensures Advances(Fetched(corpus, s, c, now), corpus, s, Step(s), offset)
  {
  }

  ghost predicate AdvancesAt(
    fetch: Fetcher, corpus: seq<SourceRecord>, s: Settings, step: nat, c: Option<Checkpoint>, now: Time, offset: nat)
  {
    Resumes(corpus, c, s, offset) ==> Advances(fetch(c, now), corpus, s, step, offset)
  }

  ghost predicate AlwaysAdvances(fetch: Fetcher, corpus: seq<SourceRecord>, s: Settings, step: nat) {
    forall c, now, offset: nat :: AdvancesAt(fetch, corpus, s, step, c, now, offset)
  }

  lemma FetchesAdvance(corpus: seq<SourceRecord>, s: Settings)
    ensures AlwaysAdvances(FetcherOf(corpus, s), corpus, s, Step(s))
  {
    var fetch := FetcherOf(corpus, s);
    forall c, now, offset: nat ensures AdvancesAt(fetch, corpus, s, Step(s), c, now, offset) {
      if Resumes(corpus, c, s, offset) { FetchAdvances(corpus, s, c, now, offset); }
    }
  }

  lemma JoinReplays(a: seq<SourceRecord>, b: seq<SourceRecord>, x: seq<SourceRecord>, y: seq<SourceRecord>)
    requires Replays(a, x) && Replays(b, y)
    ensures Replays(a + b, x + y)
  {
  }

  lemma {:induction false} ReplaysFrom(
    fetch: Fetcher, corpus: seq<SourceRecord>, s: Settings, step: nat, c: Option<Checkpoint>, clock: seq<Time>, offset: nat)
    requires AlwaysAdvances(fetch, corpus, s, step) && step >= 1 && Resumes(corpus, c, s, offset)
    requires |clock| >= Pages(|corpus| - offset, step)
    ensures var bs := Batches(fetch, c, clock);
            bs != [] && !bs[|bs| - 1].hasMore && Replays(Records(bs), corpus[offset..])
    decreases |clock|
  {
    assert AdvancesAt(fetch, corpus, s, step, c, clock[0], offset);
    var b, end := fetch(c, clock[0]).value, End(corpus, step, offset);
    var rest := if b.hasMore then Batches(fetch, Some(b.checkpoint), clock[1..]) else [];
    assert Batches(fetch, c, clock) == [b] + rest && ([b] + rest)[1..] == rest;
    if b.hasMore {
      ReplaysFrom(fetch, corpus, s, step, Some(b.checkpoint), clock[1..], end);
      JoinReplays(b.records, Records(rest), corpus[offset..end], corpus[end..]);
      assert corpus[offset..] == corpus[offset..end] + corpus[end..];
    } else {
      assert corpus[offset..] == corpus[offset..end] && b.records + Records([]) == b.records;
    }
  }

  lemma {:induction false} BatchesCount(fetch: Fetcher, c: Option<Checkpoint>, clock: seq<Time>)
    ensures |Batches(fetch, c, clock)| <= |clock|
    decreases |clock|
  {
    if clock != [] && fetch(c, clock[0]).Ok? { BatchesCount(fetch, Some(fetch(c, clock[0]).value.checkpoint), clock[1..]); }
  }

  lemma ReplayedIdentities(out: seq<SourceRecord>, corpus: seq<SourceRecord>)
    requires Replays(out, corpus) && DistinctIdentities(corpus)
    ensures DistinctIdentities(out)
  {
    forall i, j | 0 <= i < j < |out| ensures KeyOf(out[i]) != KeyOf(out[j]) {
      assert KeyOf(out[i]) == KeyOf(corpus[i]) && KeyOf(out[j]) == KeyOf(corpus[j]);
    }
  }

  /** Main result: replaying from no cursor hands out the whole corpus, every revision once, in arrival order, and
      ends within one fetch per `pageSize * maxPages` records (and at least one). */
  lemma ReplayIsComplete(records: seq<SourceRecord>, s: Settings, clock: seq<Time>)
    requires Consistent(records, s.sourceId) && Step(s) >= 1 && |clock| == Pages(|Corpus(records)|, Step(s))
    ensures var bs := Batches(FetcherOf(Corpus(records), s), None, clock);
            && 1 <= |bs| <= |clock| && !bs[|bs| - 1].hasMore && Replays(Records(bs), Corpus(records))
            && DistinctIdentities(Records(bs))
  {
    var corpus := Corpus(records);
    var fetch := FetcherOf(corpus, s);
    CorpusHolds(records, s.sourceId);
    FetchesAdvance(corpus, s);
    ReplaysFrom(fetch, corpus, s, Step(s), None, clock, 0);
    assert corpus[0..] == corpus;
    BatchesCount(fetch, None, clock);
    ReplayedIdentities(Records(Batches(fetch, None, clock)), corpus);
  }

  /** A checkpoint of a corpus is one of every corpus it starts. */
  lemma ResumesAppended(corpus: seq<SourceRecord>, longer: seq<SourceRecord>, c: Checkpoint, s: Settings, offset: nat)
    requires corpus <= longer && Resumes(corpus, Some(c), s, offset)
    ensures Resumes(longer, Some(c), s, offset)
  {
    if c.cursor.Position? { assert longer[..offset] == corpus[..offset]; }
  }

  /** A checkpoint issued for a corpus is accepted, and resumes at the same place, after records are appended. */
  lemma CursorSurvivesAppend(
    records: seq<SourceRecord>, more: seq<SourceRecord>, s: Settings, c: Option<Checkpoint>, now: Time, later: Time, offset: nat)
    requires Resumes(Corpus(records), c, s, offset)
    ensures Fetched(Corpus(records), s, c, now).Ok?
    ensures var issued := Fetched(Corpus(records), s, c, now).value.checkpoint;
            var corpus, end := Corpus(records + more), End(Corpus(records), Step(s), offset);
            && end <= |Corpus(records)| <= |corpus| && Resumes(Corpus(records), Some(issued), s, end)
            && Advances(Fetched(corpus, s, Some(issued), later), corpus, s, Step(s), end)
  {
    CorpusExtends(records, more);
    FetchAdvances(Corpus(records), s, c, now, offset);
    var issued := Fetched(Corpus(records), s, c, now).value.checkpoint;
    var end := End(Corpus(records), Step(s), offset);
    ResumesAppended(Corpus(records), Corpus(records + more), issued, s, end);
    FetchAdvances(Corpus(records + more), s, Some(issued), later, end);
  }

  /** What a checkpoint says was handed out: nothing, without a checkpoint or without a cursor in it. */
  function HandedOut(c: Option<Checkpoint>): seq<SourceRecord> {
    if c.Some? && c.value.cursor.Position? then c.value.cursor.prefix else []
  }

  /** Whatever a corpus accepts to start from, be it no checkpoint, one without a cursor or one with: what it says was
      handed out is the start of the corpus, and replaying from it hands out exactly the rest, so that nothing is skipped
      or repeated. */
  lemma AcceptedCursorMatches(corpus: seq<SourceRecord>, s: Settings, c: Option<Checkpoint>, clock: seq<Time>)
    requires Offset(corpus, c, s.sourceId).Ok? && Step(s) >= 1
    requires |HandedOut(c)| <= |corpus| ==> |clock| == Pages(|corpus| - |HandedOut(c)|, Step(s))
    ensures var bs, n := Batches(FetcherOf(corpus, s), c, clock), |HandedOut(c)|;
            && n <= |corpus| && 1 <= |bs| <= |clock| && !bs[|bs| - 1].hasMore
            && Replays(Records(bs), corpus[n..]) && Replays(HandedOut(c) + Records(bs), corpus)
  {
    AcceptedResumes(corpus, s, c);
    FetchesAdvance(corpus, s);
    var fetch, n := FetcherOf(corpus, s), |HandedOut(c)|;
    ReplaysFrom(fetch, corpus, s, Step(s), c, clock, n);
    BatchesCount(fetch, c, clock);
    JoinReplays(HandedOut(c), Records(Batches(fetch, c, clock)), corpus[..n], corpus[n..]);
    assert corpus[..n] + corpus[n..] == corpus;
  }

  lemma AcceptedResumes(corpus: seq<SourceRecord>, s: Settings, c: Option<Checkpoint>)
    requires Offset(corpus, c, s.sourceId).Ok?
    ensures Resumes(corpus, c, s, |HandedOut(c)|) && HandedOut(c) == corpus[..|HandedOut(c)|]
  {
  }

  // ---- the source object ----

  /** The constructor's loop over its input, with its three dictionaries. */
  method Deduplicate(records: seq<SourceRecord>, sourceId: string) returns (res: Result<seq<SourceRecord>>)
    ensures res.Ok? <==> Consistent(records, sourceId)
    ensures res.Ok? ==> res.value == Corpus(records)
  {
    var unique: seq<SourceRecord> := [];
    var recordFamilies: map<string, Family> := map[];
    var familyRecordIds: map<Family, string> := map[];
    for n := 0 to |records|
      invariant Consistent(records[..n], sourceId) && unique == Corpus(records[..n])
      invariant Recorded(records[..n], unique, recordFamilies, familyRecordIds)
    {
      var r := records[n];
      Turn(records, n, sourceId, unique, recordFamilies, familyRecordIds);
      if !Acceptable(r, sourceId) {
        return Err(InvalidInput);
      }
      if exists q :: q in unique && KeyOf(q) == KeyOf(r) && q != r {
        return Err(InvalidInput);
      }
      if r.recordId in recordFamilies && recordFamilies[r.recordId] != FamilyOf(r) {
        return Err(InvalidInput);
      }
      if FamilyOf(r) in familyRecordIds && familyRecordIds[FamilyOf(r)] != r.recordId {
        return Err(InvalidInput);
      }
      recordFamilies := recordFamilies[r.recordId := FamilyOf(r)];
      familyRecordIds := familyRecordIds[FamilyOf(r) := r.recordId];
      if !HasKey(unique, KeyOf(r)) {
        unique := unique + [r];
      }
    }
    assert records[..|records|] == records;
    res := Ok(unique);
  }

  ghost predicate Belongs(records: seq<SourceRecord>, id: string, f: Family) {
    exists r :: r in records && r.recordId == id && FamilyOf(r) == f
  }

  /** What the dictionaries hold of the records read so far. */
  ghost predicate Recorded(
    records: seq<SourceRecord>, unique: seq<SourceRecord>, recordFamilies: map<string, Family>, familyRecordIds: map<Family, string>)
  {
    && (forall r :: r in unique <==> r in records)
    && (forall r :: r in records ==> r.recordId in recordFamilies && recordFamilies[r.recordId] == FamilyOf(r))
    && (forall r :: r in records ==> FamilyOf(r) in familyRecordIds && familyRecordIds[FamilyOf(r)] == r.recordId)
    && (forall id :: id in recordFamilies ==> Belongs(records, id, recordFamilies[id]))
    && (forall f :: f in familyRecordIds ==> Belongs(records, familyRecordIds[f], f))
  }

  /** The checks of one turn. */
  predicate Fits(
    r: SourceRecord, sourceId: string, unique: seq<SourceRecord>, recordFamilies: map<string, Family>, familyRecordIds: map<Family, string>)
  {
    && Acceptable(r, sourceId) && !(exists q :: q in unique && KeyOf(q) == KeyOf(r) && q != r)
    && (r.recordId in recordFamilies ==> recordFamilies[r.recordId] == FamilyOf(r))
    && (FamilyOf(r) in familyRecordIds ==> familyRecordIds[FamilyOf(r)] == r.recordId)
  }

  /** What one turn of the loop decides and leaves behind. */
  lemma Turn(
    records: seq<SourceRecord>, n: nat, sourceId: string, unique: seq<SourceRecord>,
    recordFamilies: map<string, Family>, familyRecordIds: map<Family, string>)
    requires n < |records| && Consistent(records[..n], sourceId) && unique == Corpus(records[..n])
    requires Recorded(records[..n], unique, recordFamilies, familyRecordIds)
    ensures var r := records[n];
            if !Fits(r, sourceId, unique, recordFamilies, familyRecordIds) then !Consistent(records, sourceId)
            else
              && Consistent(records[..n + 1], sourceId)
              && Corpus(records[..n + 1]) == (if HasKey(unique, KeyOf(r)) then unique else unique + [r])
              && Recorded(records[..n + 1], Corpus(records[..n + 1]), recordFamilies[r.recordId := FamilyOf(r)],
                          familyRecordIds[FamilyOf(r) := r.recordId])
  {
    var before, r := records[..n], records[n];
    assert records[..n + 1] == before + [r] && records[..n + 1][..n] == before;
    NextRecord(before, r, sourceId, unique, recordFamilies, familyRecordIds);
    if Fits(r, sourceId, unique, recordFamilies, familyRecordIds) {
      NoConflicts(before, r, sourceId);
      RecordOne(before, r, unique, recordFamilies, familyRecordIds);
    } else {
      PrefixConsistent(records, sourceId, n + 1);
    }
  }

  lemma NoConflicts(records: seq<SourceRecord>, r: SourceRecord, sourceId: string)
    requires Consistent(records + [r], sourceId)
    ensures forall q :: q in records ==> !Conflict(q, r)
  {
    assert r in records + [r] && forall q :: q in records ==> q in records + [r];
  }

  lemma NextRecord(
    records: seq<SourceRecord>, r: SourceRecord, sourceId: string, unique: seq<SourceRecord>,
    recordFamilies: map<string, Family>, familyRecordIds: map<Family, string>)
    requires Consistent(records, sourceId) && Recorded(records, unique, recordFamilies, familyRecordIds)
    ensures Consistent(records + [r], sourceId) <==> Fits(r, sourceId, unique, recordFamilies, familyRecordIds)
  {
    var all := records + [r];
    assert forall q :: q in all <==> q in records || q == r;
    if Consistent(all, sourceId) {
      forall q | q in unique ensures !Conflict(q, r) { assert q in all && r in all; }
      if r.recordId in recordFamilies {
        assert Belongs(records, r.recordId, recordFamilies[r.recordId]);
        var q :| q in records && q.recordId == r.recordId && recordFamilies[r.recordId] == FamilyOf(q);
        assert !Conflict(q, r);
      }
      if FamilyOf(r) in familyRecordIds {
        assert Belongs(records, familyRecordIds[FamilyOf(r)], FamilyOf(r));
        var q :| q in records && FamilyOf(q) == FamilyOf(r) && familyRecordIds[FamilyOf(r)] == q.recordId;
        assert !Conflict(q, r);
      }
    }
  }

  lemma RecordOne(
    records: seq<SourceRecord>, r: SourceRecord, unique: seq<SourceRecord>,
    recordFamilies: map<string, Family>, familyRecordIds: map<Family, string>)
    requires Recorded(records, unique, recordFamilies, familyRecordIds)
    requires forall q :: q in records ==> !Conflict(q, r)
    ensures Recorded(records + [r], if HasKey(unique, KeyOf(r)) then unique else unique + [r],
                     recordFamilies[r.recordId := FamilyOf(r)], familyRecordIds[FamilyOf(r) := r.recordId])
  {
    var all := records + [r];
    assert r in all && forall q :: q in all <==> q in records || q == r;
    if HasKey(unique, KeyOf(r)) {
      var q :| q in unique && KeyOf(q) == KeyOf(r);
      assert !Conflict(q, r);
    }
    var families, ids := recordFamilies[r.recordId := FamilyOf(r)], familyRecordIds[FamilyOf(r) := r.recordId];
    forall id | id in families ensures Belongs(all, id, families[id]) {
      if id != r.recordId { assert Belongs(records, id, recordFamilies[id]); }
    }
    forall f | f in ids ensures Belongs(all, ids[f], f) {
      if f != FamilyOf(r) { assert Belongs(records, familyRecordIds[f], f); }
    }
  }

  lemma PrefixConsistent(records: seq<SourceRecord>, sourceId: string, n: nat)
    requires n <= |records| && !Consistent(records[..n], sourceId)
    ensures !Consistent(records, sourceId)
  {
    if Consistent(records, sourceId) {
      assert forall r :: r in records[..n] ==> r in records;
    }
  }

  class ReplaySource {
    const records: seq<SourceRecord>
    const settings: Settings
    var pagesRead: nat

    constructor (corpus: seq<SourceRecord>, s: Settings)
      requires WithinBounds(s, |corpus|)
      ensures records == corpus && settings == s && pagesRead == 0
    {
      records, settings, pagesRead := corpus, s, 0;
    }

    method Resume(c: Option<Checkpoint>) returns (res: Result<nat>)
      ensures res == Offset(records, c, settings.sourceId)
    {
      if c.Some? {
        if c.value.sourceId != settings.sourceId {
          return Err(InvalidInput);
        }
        match c.value.cursor {
          case NoCursor =>
          case Unreadable => return Err(InvalidInput);
          case Position(version, at, prefix) =>
            if version != "v1" || !(0 <= at <= |records|) || prefix != records[..at] {
              return Err(InvalidInput);
            }
            return Ok(at);
        }
      }
      res := Ok(0);
    }

    method Coverage(c: Option<Checkpoint>, end: nat) returns (gap: GapState)
      ensures gap == Gap(records, settings, c, end)
    {
      gap := NoGap;
      if end < |records| {
        gap := PaginationLimit;
      }
      if settings.retentionStart.Some?
         && (c.None? || c.value.watermark.None? || c.value.watermark.value < settings.retentionStart.value
             || c.value.gap == RetentionExceeded) {
        gap := RetentionExceeded;
      }
    }

    /** `fetch`. */
    method Fetch(c: Option<Checkpoint>, now: Time) returns (res: Result<Batch>)
      requires settings.pageSize >= 1
      modifies this`pagesRead
      ensures res == Fetched(records, settings, c, now)
      ensures pagesRead == old(pagesRead) + if res.Ok? then Pages(|res.value.records|, settings.pageSize) else 0
    {
      var offset := Resume(c);
      if offset.Err? {
        return Err(offset.code);
      }
      var end := End(records, Step(settings), offset.value);
      pagesRead := pagesRead + Pages(end - offset.value, settings.pageSize);
      var selected := MarkAll(records[offset.value..end], now);
      var gap := Coverage(c, end);
      var mark := if c.Some? then c.value.watermark else None;
      var watermark := Watermark(mark, selected, now);
      var checkpoint := Checkpoint(
        settings.sourceId, Position("v1", end, records[..end]), watermark, now, now + settings.pollSeconds, gap);
      res := Ok(Batch(selected, checkpoint, end < |records|));
    }
  }
}
