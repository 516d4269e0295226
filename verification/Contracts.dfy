module Contracts {
  /** The values that cross components (`contracts/dto.py`). */

  import opened Common

  datatype Provenance = Fixture | Trial | Production

  /** A provenance with its dataset label. */
  datatype Scope = Scope(provenance: Provenance, dataset: Option<string>)

  datatype TimeQuality = ValidTime | UnknownTime | FutureQuarantined | Unreliable

  /** `contentHash` is the pair the digest was taken of. */
  datatype SourceRecord = SourceRecord(
    recordId: string, sourceId: string, externalId: string, revision: nat, contentHash: (string, string),
    title: string, excerpt: string, url: string, publisher: string,
    publishedAt: Option<Time>, availableAt: Option<Time>, discoveredAt: Time, occurredAt: Option<Time>,
    rights: string, quality: TimeQuality, scope: Scope)

  type RecordKey = (string, nat)

  function KeyOf(r: SourceRecord): RecordKey { (r.recordId, r.revision) }

  datatype Field = Title | ContentExcerpt | OtherField(name: string)

  datatype Ref = Ref(recordId: string, revision: nat, field: Field, excerpt: string)

  function RefKey(ref: Ref): RecordKey { (ref.recordId, ref.revision) }

  datatype Assertion = Occurred | Planned | Denied | AssertionUnknown
  datatype Severity = Urgent | Important | Routine
  datatype EvidenceStatus =
    | CredibleSingleSource | PublisherStatement | IndependentMultiSource | Conflicting | Corrected | Withdrawn | Unverified

  predicate Reliable(e: EvidenceStatus) { e.CredibleSingleSource? || e.PublisherStatement? || e.IndependentMultiSource? }

  datatype OriginGroup = OriginGroup(publisher: string, recordIds: seq<string>)

  predicate StandsAt(part: string, text: string, i: nat) { i + |part| <= |text| && text[i..i + |part|] == part }

  /** The part stands somewhere in the text. */
  predicate Within(part: string, text: string) {
    exists i: nat :: i <= |text| && StandsAt(part, text, i)
  }

  /** The text a reference quotes from. */
  function FieldText(r: SourceRecord, f: Field): Option<string> {
    match f
    case Title => Some(r.title)
    case ContentExcerpt => Some(r.excerpt)
    case OtherField(_) => None
  }

  /** `validate_reference`: the record is indexed and the nonblank excerpt stands in the named field. */
  predicate ValidReference(ref: Ref, index: map<RecordKey, SourceRecord>) {
    && RefKey(ref) in index
    && FieldText(index[RefKey(ref)], ref.field).Some?
    && !Blank(ref.excerpt)
    && Within(ref.excerpt, FieldText(index[RefKey(ref)], ref.field).value)
  }

  /** `quote_reference`: the excerpt, or the title when the excerpt is blank, cut to 1800 characters. */
  function QuoteReference(r: SourceRecord): (ref: Option<Ref>) {
    var field := if !Blank(r.excerpt) then ContentExcerpt else Title;
    var text := if !Blank(r.excerpt) then r.excerpt else r.title;
    if Blank(text) then None
    else Some(Ref(r.recordId, r.revision, field, if |text| <= 1800 then text else text[..1800]))
  }

  predicate Verified(r: SourceRecord) {
    r.contentHash == (r.title, r.excerpt) && !Blank(r.rights) && !Blank(r.publisher)
  }

  function FamilyKey(r: SourceRecord): (string, string, nat) { (r.sourceId, r.externalId, r.revision) }

  predicate Clash(a: SourceRecord, b: SourceRecord) {
    (KeyOf(a) == KeyOf(b) || FamilyKey(a) == FamilyKey(b)) && a != b
  }

  /** `index_records`: every record verified, and neither identity used for two different records. */
  predicate Indexable(records: seq<SourceRecord>) {
    && (forall r :: r in records ==> Verified(r))
    && forall a, b :: a in records && b in records ==> !Clash(a, b)
  }

  function Index(records: seq<SourceRecord>): map<RecordKey, SourceRecord> {
    if records == [] then map[] else Index(records[..|records| - 1])[KeyOf(records[|records| - 1]) := records[|records| - 1]]
  }

  /** A dictionary of the loop: each record under its own key, and nothing else. */
  ghost predicate Files<K>(records: seq<SourceRecord>, index: map<K, SourceRecord>, key: SourceRecord -> K) {
    && (forall r :: r in records ==> key(r) in index && index[key(r)] == r)
    && forall k :: k in index ==> index[k] in records && key(index[k]) == k
  }

  lemma FilesOne<K>(records: seq<SourceRecord>, index: map<K, SourceRecord>, key: SourceRecord -> K, r: SourceRecord)
    requires Files(records, index, key) && (key(r) in index ==> index[key(r)] == r)
    ensures Files(records + [r], index[key(r) := r], key)
  {
  }

  /** One more record is acceptable exactly when neither dictionary holds a different one in its place. */
  lemma OneMore(
    records: seq<SourceRecord>, r: SourceRecord, index: map<RecordKey, SourceRecord>,
    families: map<(string, string, nat), SourceRecord>)
    requires Files(records, index, KeyOf) && Files(records, families, FamilyKey) && Indexable(records)
    ensures Indexable(records + [r]) <==>
              (Verified(r) && (KeyOf(r) in index ==> index[KeyOf(r)] == r)
               && (FamilyKey(r) in families ==> families[FamilyKey(r)] == r))
  {
    var all := records + [r];
    assert r in all && forall a :: a in records ==> a in all;
    if KeyOf(r) in index && index[KeyOf(r)] != r { assert Clash(index[KeyOf(r)], r); }
    if FamilyKey(r) in families && families[FamilyKey(r)] != r { assert Clash(families[FamilyKey(r)], r); }
  }

  lemma PrefixIndexable(records: seq<SourceRecord>, n: nat)
    requires n <= |records| && Indexable(records)
    ensures Indexable(records[..n])
  {
    assert forall r :: r in records[..n] ==> r in records;
  }

  predicate Fits(r: SourceRecord, index: map<RecordKey, SourceRecord>, families: map<(string, string, nat), SourceRecord>) {
    Verified(r) && (KeyOf(r) in index ==> index[KeyOf(r)] == r) && (FamilyKey(r) in families ==> families[FamilyKey(r)] == r)
  }

  /** What one turn of the loop decides. */
  lemma Indexed(
    records: seq<SourceRecord>, n: nat, index: map<RecordKey, SourceRecord>, families: map<(string, string, nat), SourceRecord>)
    requires n < |records| && Indexable(records[..n]) && index == Index(records[..n])
    requires Files(records[..n], index, KeyOf) && Files(records[..n], families, FamilyKey)
    ensures var r := records[n];
            && (!Fits(r, index, families) ==> !Indexable(records))
            && (Fits(r, index, families) ==>
                  && Indexable(records[..n + 1]) && index[KeyOf(r) := r] == Index(records[..n + 1])
                  && Files(records[..n + 1], index[KeyOf(r) := r], KeyOf)
                  && Files(records[..n + 1], families[FamilyKey(r) := r], FamilyKey))
  {
    var r := records[n];
    assert records[..n + 1] == records[..n] + [r] && records[..n + 1][..n] == records[..n];
    OneMore(records[..n], r, index, families);
    if Fits(r, index, families) {
      FilesOne(records[..n], index, KeyOf, r);
      FilesOne(records[..n], families, FamilyKey, r);
    } else if Indexable(records) {
      PrefixIndexable(records, n + 1);
    }
  }

  /** The loop of `index_records` accepts exactly the indexable inputs. */
  method IndexRecords(records: seq<SourceRecord>) returns (r: Result<map<RecordKey, SourceRecord>>)
    ensures r.Ok? <==> Indexable(records)
    ensures r.Ok? ==> r.value == Index(records)
    ensures r.Err? ==> r.code == InvalidInput
  {
    var index: map<RecordKey, SourceRecord> := map[];
    var families: map<(string, string, nat), SourceRecord> := map[];
    for n := 0 to |records|
      invariant Indexable(records[..n])
      invariant index == Index(records[..n])
      invariant Files(records[..n], index, KeyOf) && Files(records[..n], families, FamilyKey)
    {
      var record := records[n];
      Indexed(records, n, index, families);
      if !Verified(record) {
        return Err(InvalidInput);
      }
      if KeyOf(record) in index && index[KeyOf(record)] != record {
        return Err(InvalidInput);
      }
      if FamilyKey(record) in families && families[FamilyKey(record)] != record {
        return Err(InvalidInput);
      }
      families := families[FamilyKey(record) := record];
      index := index[KeyOf(record) := record];
    }
    assert records[..|records|] == records;
    r := Ok(index);
  }
}
