/** When the events of an assessment pass their validator, and what a refusal does not depend on. */
module EventValidity {
  import opened Common
  import opened Contracts
  import opened OccurrenceView
  import opened Revisions
  import opened Assessment

  /** References are filed under the record they quote: extraction and review registration key them so, and a rule's
      match names the record it was found in. */
  predicate FiledFor(x: Inputs, claims: Claims, r: SourceRecord) {
    var key := KeyOf(r);
    && (key in claims ==> RefKey(claims[key].reference) == key)
    && (key in x.reviews ==> RefKey(x.reviews[key].reference) == key)
    && (x.rules(r).Some? ==> RefKey(x.rules(r).value.reference) == key)
  }

  ghost predicate Filed(x: Inputs, claims: Claims) {
    forall r :: FiledFor(x, claims, r)
  }

  predicate QuotesOwn(judged: seq<Judged>) {
    forall k :: 0 <= k < |judged| ==> judged[k].reference.recordId == judged[k].record.recordId
  }

  lemma JudgeFiled(x: Inputs, claims: Claims, r: SourceRecord)
    requires Filed(x, claims) && Judge(x, claims, r).Ok? && Judge(x, claims, r).value.Some?
    ensures var j := Judge(x, claims, r).value.value;
            j.reference.recordId == j.record.recordId
  {
    assert FiledFor(x, claims, r);
  }

  lemma {:induction false} JudgedFiled(x: Inputs, claims: Claims, grouped: seq<SourceRecord>)
    requires Filed(x, claims) && JudgeAll(x, claims, grouped).Ok?
    ensures QuotesOwn(JudgeAll(x, claims, grouped).value)
    decreases |grouped|
  {
    if grouped != [] {
      var last := grouped[|grouped| - 1];
      JudgedFiled(x, claims, grouped[..|grouped| - 1]);
      if Judge(x, claims, last).value.Some? { JudgeFiled(x, claims, last); }
    }
  }

  lemma {:induction false} FlattenUpdate(origins: seq<Origin>, i: nat, o: Origin, id: string)
    requires i < |origins| && o.recordIds == origins[i].recordIds + [id]
    ensures multiset(Flatten(origins[i := o])) == multiset(Flatten(origins)) + multiset{id}
  {
    var n := |origins| - 1;
    if i < n {
      FlattenUpdate(origins[..n], i, o, id);
      assert origins[i := o][..n] == origins[..n][i := o];
    } else {
      assert origins[i := o][..n] == origins[..n];
    }
  }

  predicate KeysOk(fold: string -> string, os: seq<Origin>) {
    && (forall i :: 0 <= i < |os| ==> fold(os[i].publisher) == os[i].key)
    && (forall i, j :: 0 <= i < j < |os| ==> os[i].key != os[j].key)
  }

  lemma AddOriginKeys(fold: string -> string, before: seq<Origin>, r: SourceRecord)
    requires KeysOk(fold, before)
    ensures KeysOk(fold, AddOrigin(fold, before, r))
  {
  }

  /** Publishers are grouped without splitting. */
  lemma {:induction false} OriginKeys(fold: string -> string, judged: seq<Judged>)
    ensures KeysOk(fold, Origins(fold, judged))
    decreases |judged|
  {
    if judged != [] {
      OriginKeys(fold, judged[..|judged| - 1]);
      AddOriginKeys(fold, Origins(fold, judged[..|judged| - 1]), judged[|judged| - 1].record);
    }
  }

  lemma AddOriginHolds(fold: string -> string, before: seq<Origin>, r: SourceRecord)
    ensures multiset(Flatten(AddOrigin(fold, before, r))) == multiset(Flatten(before)) + multiset{r.recordId}
  {
    var i := OriginPlace(before, fold(Strip(r.publisher)));
    if i == |before| {
      assert AddOrigin(fold, before, r)[..i] == before;
    } else {
      FlattenUpdate(before, i, before[i].(recordIds := before[i].recordIds + [r.recordId]), r.recordId);
    }
  }

  lemma SupportGrows(judged: seq<Judged>, rest: seq<Judged>, id: string)
    requires judged != [] && rest == judged[..|judged| - 1] && id == judged[|judged| - 1].record.recordId
    ensures multiset(Support(judged)) == multiset(Support(rest)) + multiset{id}
  {
    assert Support(judged) == Support(rest) + [id];
  }

  /** Every selected record lands in exactly one group. */
  lemma {:induction false} OriginsHold(fold: string -> string, judged: seq<Judged>)
    ensures multiset(Flatten(Origins(fold, judged))) == multiset(Support(judged))
    decreases |judged|
  {
    if judged != [] {
      var rest, r := judged[..|judged| - 1], judged[|judged| - 1].record;
      OriginsHold(fold, rest);
      var before := Origins(fold, rest);
      AddOriginHolds(fold, before, r);
      SupportGrows(judged, rest, r.recordId);
      assert Origins(fold, judged) == AddOrigin(fold, before, r);
    }
  }

  lemma PublishersDistinct(fold: string -> string, os: seq<Origin>)
    requires KeysOk(fold, os)
    ensures |set o | o in os :: fold(o.publisher)| == |os|
  {
    var keys := seq(|os|, i requires 0 <= i < |os| => os[i].key);
    DistinctSize(keys);
    forall o | o in os ensures fold(o.publisher) in keys {
      var i :| 0 <= i < |os| && os[i] == o;
      assert keys[i] == fold(o.publisher);
    }
    forall k | k in keys ensures exists o :: o in os && fold(o.publisher) == k {
      var i :| 0 <= i < |keys| && keys[i] == k;
      assert os[i] in os;
    }
    assert (set o | o in os :: fold(o.publisher)) == ToSet(keys);
  }

  lemma EvidenceCovers(judged: seq<Judged>)
    requires QuotesOwn(judged)
    ensures (set ref | ref in Evidence(judged) :: ref.recordId) == ToSet(Support(judged))
  {
    var evidence, support := Evidence(judged), Support(judged);
    forall id | id in support ensures exists ref :: ref in evidence && ref.recordId == id {
      var k :| 0 <= k < |support| && support[k] == id;
      assert evidence[k] in evidence;
    }
    forall ref | ref in evidence ensures ref.recordId in support {
      var k :| 0 <= k < |evidence| && evidence[k] == ref;
      assert support[k] == ref.recordId;
    }
  }

  lemma GroupsCover(fold: string -> string, judged: seq<Judged>)
    ensures ToSet(Flatten(Origins(fold, judged))) == ToSet(Support(judged)) && |Flatten(Origins(fold, judged))| == |judged|
  {
    OriginsHold(fold, judged);
    SameMembers(Flatten(Origins(fold, judged)), Support(judged));
  }

  lemma EnoughPublishers(x: Inputs, judged: seq<Judged>)
    ensures StatusOf(x, judged) == IndependentMultiSource ==> |Origins(x.fold, judged)| >= 2
  {
  }

  lemma ConcludedIffDistinct(x: Inputs, eventId: string, judged: seq<Judged>)
    requires judged != [] && QuotesOwn(judged)
    ensures Conclude(x, eventId, judged).support == Support(judged)
    ensures ValidEvent(Conclude(x, eventId, judged), x.fold) <==> Distinct(Support(judged))
  {
    OriginKeys(x.fold, judged);
    PublishersDistinct(x.fold, Origins(x.fold, judged));
    EvidenceCovers(judged);
    GroupsCover(x.fold, judged);
    EnoughPublishers(x, judged);
    DistinctSize(Support(judged));
  }

  // ---- which records meet in one event ----

  predicate Quotable(r: SourceRecord) { QuoteReference(r).Some? }

  predicate GroupOk(eventOf: Family -> string, latest: seq<SourceRecord>, g: Group) {
    OnePerFamily(g.records) && forall r :: r in g.records ==> r in latest && eventOf(FamilyOf(r)) == g.eventId
  }

  /** Every record in the one group of its event, and every group made of records of its event. */
  ghost predicate Partition(eventOf: Family -> string, latest: seq<SourceRecord>, groups: seq<Group>) {
    && (forall g :: g in groups ==> GroupOk(eventOf, latest, g))
    && (forall i, j :: 0 <= i < j < |groups| ==> groups[i].eventId != groups[j].eventId)
    && (forall r :: r in latest ==> exists g :: g in groups && r in g.records)
  }

  lemma {:induction false} GroupAbsent(groups: seq<Group>, id: string)
    ensures GroupPlace(groups, id) == |groups| <==> forall g :: g in groups ==> g.eventId != id
    decreases |groups|
  {
    if groups != [] {
      GroupAbsent(groups[1..], id);
      assert groups == [groups[0]] + groups[1..];
    }
  }

  lemma AddKeepsPartition(eventOf: Family -> string, rest: seq<SourceRecord>, groups: seq<Group>, r: SourceRecord)
    requires Partition(eventOf, rest, groups) && forall q :: q in rest ==> FamilyOf(q) != FamilyOf(r)
    ensures Partition(eventOf, rest + [r], AddToGroup(eventOf, groups, r))
  {
    var id, after := eventOf(FamilyOf(r)), AddToGroup(eventOf, groups, r);
    var i := GroupPlace(groups, id);
    GroupAbsent(groups, id);
    forall g | g in after ensures GroupOk(eventOf, rest + [r], g) {
      if g in groups { assert GroupOk(eventOf, rest, g); } else { assert g == after[i] && (i < |groups| ==> groups[i] in groups); }
    }
    forall q | q in rest + [r] ensures exists g :: g in after && q in g.records {
      if q in rest {
        var g :| g in groups && q in g.records;
        var k :| 0 <= k < |groups| && groups[k] == g;
        assert q in after[k].records && after[k] in after;
      } else {
        assert q in after[i].records && after[i] in after;
      }
    }
  }

  lemma {:induction false} GroupsPartition(eventOf: Family -> string, latest: seq<SourceRecord>)
    requires OnePerFamily(latest)
    ensures Partition(eventOf, latest, Groups(eventOf, latest))
    decreases |latest|
  {
    if latest != [] {
      var rest, r := latest[..|latest| - 1], latest[|latest| - 1];
      GroupsPartition(eventOf, rest);
      AddKeepsPartition(eventOf, rest, Groups(eventOf, rest), r);
      assert latest == rest + [r];
    }
  }

  lemma {:induction false} FilterFamilies(keep: SourceRecord -> bool, s: seq<SourceRecord>)
    requires OnePerFamily(s)
    ensures OnePerFamily(Filter(keep, s))
    decreases |s|
  {
    if s != [] {
      var rest := s[..|s| - 1];
      FilterFamilies(keep, rest);
      forall i | 0 <= i < |Filter(keep, rest)| ensures FamilyOf(Filter(keep, rest)[i]) != FamilyOf(s[|s| - 1]) {
        assert Filter(keep, rest)[i] in rest;
      }
    }
  }

  predicate Picked(judged: seq<Judged>, records: seq<SourceRecord>) {
    |judged| == |records| && forall k :: 0 <= k < |judged| ==> judged[k].record == records[k]
  }

  lemma {:induction false} JudgedArePicked(x: Inputs, claims: Claims, grouped: seq<SourceRecord>)
    requires JudgeAll(x, claims, grouped).Ok?
    ensures Picked(JudgeAll(x, claims, grouped).value, Filter(Quotable, grouped))
    decreases |grouped|
  {
    if grouped != [] { JudgedArePicked(x, claims, grouped[..|grouped| - 1]); }
  }

  /** Two records that meet in one event under one ID: what a caller can look for before the call. */
  predicate Twins(x: Inputs, a: SourceRecord, b: SourceRecord) {
    var latest := Latest(x.records);
    && a in latest && b in latest && Quotable(a) && Quotable(b)
    && FamilyOf(a) != FamilyOf(b) && x.eventOf(FamilyOf(a)) == x.eventOf(FamilyOf(b)) && a.recordId == b.recordId
  }

  lemma TwinsCollide(judged: seq<Judged>, picked: seq<SourceRecord>, a: SourceRecord, b: SourceRecord)
    requires Picked(judged, picked) && a in picked && b in picked && a != b && a.recordId == b.recordId
    ensures !Distinct(Support(judged))
  {
    var i :| 0 <= i < |picked| && picked[i] == a;
    var j :| 0 <= j < |picked| && picked[j] == b;
    assert Support(judged)[i] == Support(judged)[j];
  }

  lemma CollidingAreTwins(judged: seq<Judged>, picked: seq<SourceRecord>) returns (a: SourceRecord, b: SourceRecord)
    requires Picked(judged, picked) && OnePerFamily(picked) && !Distinct(Support(judged))
    ensures a in picked && b in picked && FamilyOf(a) != FamilyOf(b) && a.recordId == b.recordId
  {
    var i, j :| 0 <= i < j < |judged| && Support(judged)[i] == Support(judged)[j];
    a, b := picked[i], picked[j];
  }

  /** The event of a group is among the events. */
  lemma {:induction false} GroupIsAssessed(x: Inputs, claims: Claims, groups: seq<Group>, g: Group)
    requires AssessGroups(x, claims, groups).Ok? && g in groups
    ensures var judged := JudgeAll(x, claims, g.records);
            && judged.Ok?
            && (judged.value != [] ==> Conclude(x, g.eventId, judged.value) in AssessGroups(x, claims, groups).value)
    decreases |groups|
  {
    var rest, last := groups[..|groups| - 1], groups[|groups| - 1];
    if g != last {
      assert g in rest;
      GroupIsAssessed(x, claims, rest, g);
    }
  }

  /** The group that twins of one event lie in. */
  lemma TwinsMeet(x: Inputs, a: SourceRecord, b: SourceRecord) returns (g: Group)
    requires Twins(x, a, b)
    ensures g in Groups(x.eventOf, Latest(x.records)) && a in g.records && b in g.records
    ensures g.eventId == x.eventOf(FamilyOf(a))
  {
    var latest := Latest(x.records);
    var groups := Groups(x.eventOf, latest);
    LatestIsNewest(x.records);
    GroupsPartition(x.eventOf, latest);
    g :| g in groups && a in g.records;
    var h :| h in groups && b in h.records;
    assert GroupOk(x.eventOf, latest, g) && GroupOk(x.eventOf, latest, h);
  }

  lemma TwinsSpoil(x: Inputs, claims: Claims, g: Group, a: SourceRecord, b: SourceRecord)
    requires Filed(x, claims) && Twins(x, a, b) && a in g.records && b in g.records && JudgeAll(x, claims, g.records).Ok?
    ensures var judged := JudgeAll(x, claims, g.records).value;
            judged != [] && !ValidEvent(Conclude(x, g.eventId, judged), x.fold)
  {
    var judged := JudgeAll(x, claims, g.records).value;
    JudgedArePicked(x, claims, g.records);
    TwinsCollide(judged, Filter(Quotable, g.records), a, b);
    JudgedFiled(x, claims, g.records);
    ConcludedIffDistinct(x, g.eventId, judged);
  }

  lemma RefusedHaveTwins(x: Inputs, claims: Claims, e: Event) returns (a: SourceRecord, b: SourceRecord)
    requires Filed(x, claims) && Assess(x, claims).Ok? && e in Assess(x, claims).value && !ValidEvent(e, x.fold)
    ensures Twins(x, a, b) && x.eventOf(FamilyOf(a)) == e.eventId
  {
    var latest := Latest(x.records);
    var groups := Groups(x.eventOf, latest);
    LatestIsNewest(x.records);
    GroupsPartition(x.eventOf, latest);
    EventsBuilt(x, claims, groups, e);
    var g, judged :| g in groups && BuiltFrom(x, claims, e, g, judged);
    assert GroupOk(x.eventOf, latest, g);
    JudgedFiled(x, claims, g.records);
    ConcludedIffDistinct(x, g.eventId, judged);
    JudgedArePicked(x, claims, g.records);
    FilterFamilies(Quotable, g.records);
    a, b := CollidingAreTwins(judged, Filter(Quotable, g.records));
  }

  lemma SpoiltEvent(x: Inputs, claims: Claims, e: Event, a: SourceRecord, b: SourceRecord)
    requires Filed(x, claims) && Assess(x, claims).Ok? && e in Assess(x, claims).value
    requires Twins(x, a, b) && x.eventOf(FamilyOf(a)) == e.eventId
    ensures !ValidEvent(e, x.fold)
  {
    var groups := Groups(x.eventOf, Latest(x.records));
    EventsBuilt(x, claims, groups, e);
    var g, judged :| g in groups && BuiltFrom(x, claims, e, g, judged);
    var h := TwinsMeet(x, a, b);
    OneGroup(x, g, h);
    TwinsSpoil(x, claims, g, a, b);
  }

  lemma OneGroup(x: Inputs, g: Group, h: Group)
    requires g in Groups(x.eventOf, Latest(x.records)) && h in Groups(x.eventOf, Latest(x.records)) && g.eventId == h.eventId
    ensures g == h
  {
    LatestIsNewest(x.records);
    GroupsPartition(x.eventOf, Latest(x.records));
  }

  /** Exactly when an assessed event passes its validator: when no two quotable latest records of different families
      meet in it under one record ID. */
  lemma ValidIffNoTwins(x: Inputs, claims: Claims, e: Event)
    requires Filed(x, claims) && Assess(x, claims).Ok? && e in Assess(x, claims).value
    ensures ValidEvent(e, x.fold) <==> forall a, b :: Twins(x, a, b) ==> x.eventOf(FamilyOf(a)) != e.eventId
  {
    if !ValidEvent(e, x.fold) { var a, b := RefusedHaveTwins(x, claims, e); }
    if a, b :| Twins(x, a, b) && x.eventOf(FamilyOf(a)) == e.eventId { SpoiltEvent(x, claims, e, a, b); }
  }

  /** All of them do exactly when there are no such records at all. */
  lemma AllValidIffNoTwins(x: Inputs, claims: Claims)
    requires Filed(x, claims) && Assess(x, claims).Ok?
    ensures (forall e :: e in Assess(x, claims).value ==> ValidEvent(e, x.fold)) <==> forall a, b :: !Twins(x, a, b)
  {
    if e :| e in Assess(x, claims).value && !ValidEvent(e, x.fold) {
      var a, b := RefusedHaveTwins(x, claims, e);
    }
    if a, b :| Twins(x, a, b) {
      var g := TwinsMeet(x, a, b);
      GroupIsAssessed(x, claims, Groups(x.eventOf, Latest(x.records)), g);
      TwinsSpoil(x, claims, g, a, b);
    }
  }

  lemma {:induction false} ConstructedGroups(x: Inputs, claims: Claims, groups: seq<Group>)
    ensures var built, made := AssessGroups(x, claims, groups), ConstructGroups(x, claims, groups);
            && (made.Ok? <==> built.Ok? && forall e :: e in built.value ==> ValidEvent(e, x.fold))
            && (made.Ok? ==> made == built)
    decreases |groups|
  {
    if groups != [] { ConstructedGroups(x, claims, groups[..|groups| - 1]); }
  }

  /** The review or rule that decides about a record, if any, belongs to it: the review was made of this very content, and
      what either quotes stands in the record. Claims are checked when they are extracted. */
  predicate EvidenceMatches(x: Inputs, r: SourceRecord) {
    if KeyOf(r) in x.reviews then
      x.reviews[KeyOf(r)].contentHash == r.contentHash && Quotes(x.reviews[KeyOf(r)].reference, r)
    else x.rules(r).Some? ==> Quotes(x.rules(r).value.reference, r)
  }

  predicate Usable(x: Inputs, r: SourceRecord) { Quotable(r) ==> EvidenceMatches(x, r) }

  lemma JudgedOne(x: Inputs, claims: Claims, r: SourceRecord)
    ensures Judge(x, claims, r).Ok? <==> Usable(x, r)
  {
  }

  lemma {:induction false} JudgedIfUsable(x: Inputs, claims: Claims, grouped: seq<SourceRecord>)
    ensures JudgeAll(x, claims, grouped).Ok? <==> forall r :: r in grouped ==> Usable(x, r)
    decreases |grouped|
  {
    if grouped != [] {
      var rest, last := grouped[..|grouped| - 1], grouped[|grouped| - 1];
      JudgedIfUsable(x, claims, rest);
      JudgedOne(x, claims, last);
      assert forall r :: r in grouped <==> r in rest || r == last;
    }
  }

  lemma {:induction false} AssessedIfUsable(x: Inputs, claims: Claims, groups: seq<Group>)
    ensures AssessGroups(x, claims, groups).Ok? <==> forall g, r :: g in groups && r in g.records ==> Usable(x, r)
    decreases |groups|
  {
    if groups != [] {
      var rest, last := groups[..|groups| - 1], groups[|groups| - 1];
      AssessedIfUsable(x, claims, rest);
      JudgedIfUsable(x, claims, last.records);
      assert forall g :: g in groups <==> g in rest || g == last;
    }
  }

  /** Exactly when every record gets its verdict: when every quotable latest record has the evidence that decides it. */
  lemma AssessedIffMatched(x: Inputs, claims: Claims)
    ensures Assess(x, claims).Ok? <==> forall r :: r in Latest(x.records) ==> Usable(x, r)
  {
    var latest := Latest(x.records);
    LatestIsNewest(x.records);
    GroupsPartition(x.eventOf, latest);
    AssessedIfUsable(x, claims, Groups(x.eventOf, latest));
    forall g, r | g in Groups(x.eventOf, latest) && r in g.records ensures r in latest {
      assert GroupOk(x.eventOf, latest, g);
    }
  }

  /** Exactly when an assessment is answered at all: when every review and rule that decides about a quotable latest
      record belongs to it, and no two such records of different families meet in one event under one record ID. */
  lemma ConstructedIffNoTwins(x: Inputs, claims: Claims)
    requires Filed(x, claims)
    ensures Construct(x, claims).Ok? <==> (forall r :: r in Latest(x.records) ==> Usable(x, r)) && forall a, b :: !Twins(x, a, b)
    ensures Construct(x, claims).Ok? ==> Construct(x, claims) == Assess(x, claims)
  {
    ConstructedGroups(x, claims, Groups(x.eventOf, Latest(x.records)));
    AssessedIffMatched(x, claims);
    if Assess(x, claims).Ok? { AllValidIffNoTwins(x, claims); }
  }

  // ---- an input that is refused ----

  lemma LatestOfTwo(a: SourceRecord, b: SourceRecord)
    requires FamilyOf(a) != FamilyOf(b)
    ensures Latest([a, b]) == [a, b]
  {
    assert [a, b][..1] == [a] && [a][..0] == [] && [a, b][1] == b;
    assert Latest([a]) == [a];
  }

  lemma GroupOfTwo(eventOf: Family -> string, a: SourceRecord, b: SourceRecord)
    requires eventOf(FamilyOf(a)) == eventOf(FamilyOf(b))
    ensures Groups(eventOf, [a, b]) == [Group(eventOf(FamilyOf(a)), [a, b])]
  {
    assert [a, b][..1] == [a] && [a][..0] == [] && [a, b][1] == b;
    assert Groups(eventOf, [a]) == [Group(eventOf(FamilyOf(a)), [a])];
    assert [a] + [b] == [a, b];
  }

  /** Two acceptable records of different families that share a record ID, matched to one event and vouched for by
      nothing: assessed to one event, which the constructor refuses. */
  lemma SharedIdInvalid(x: Inputs, claims: Claims, a: SourceRecord, b: SourceRecord)
    requires x.records == [a, b] && Indexable(x.records) && Filed(x, claims)
    requires FamilyOf(a) != FamilyOf(b) && x.eventOf(FamilyOf(a)) == x.eventOf(FamilyOf(b))
    requires a.recordId == b.recordId && a.revision != b.revision && Quotable(a) && Quotable(b)
    requires x.reviews == map[] && x.rules(a).None? && x.rules(b).None?
    ensures Assess(x, claims).Ok? && |Assess(x, claims).value| == 1
    ensures !ValidEvent(Assess(x, claims).value[0], x.fold) && Construct(x, claims).Err?
  {
    LatestOfTwo(a, b);
    GroupOfTwo(x.eventOf, a, b);
    JudgedTwo(x, claims, a, b);
    OneGroupAssessed(x, claims, Group(x.eventOf(FamilyOf(a)), [a, b]));
    TwinsRefuse(x, claims, a, b);
  }

  lemma OneGroupAssessed(x: Inputs, claims: Claims, g: Group)
    requires JudgeAll(x, claims, g.records).Ok? && JudgeAll(x, claims, g.records).value != []
    ensures AssessGroups(x, claims, [g]).Ok? && |AssessGroups(x, claims, [g]).value| == 1
  {
    assert [g][..0] == [] && AssessGroups(x, claims, []) == Ok([]);
  }

  lemma TwinsRefuse(x: Inputs, claims: Claims, a: SourceRecord, b: SourceRecord)
    requires Filed(x, claims) && Assess(x, claims).Ok? && |Assess(x, claims).value| == 1 && Twins(x, a, b)
    ensures !ValidEvent(Assess(x, claims).value[0], x.fold) && Construct(x, claims).Err?
  {
    ConstructedIffNoTwins(x, claims);
    AllValidIffNoTwins(x, claims);
    OnlyOne(Assess(x, claims).value, (e: Event) => ValidEvent(e, x.fold));
  }

  lemma OnlyOne(events: seq<Event>, valid: Event -> bool)
    requires |events| == 1
    ensures (forall e :: e in events ==> valid(e)) <==> valid(events[0])
  {
  }

  lemma JudgedTwo(x: Inputs, claims: Claims, a: SourceRecord, b: SourceRecord)
    requires x.reviews == map[] && x.rules(a).None? && x.rules(b).None? && Quotable(a) && Quotable(b)
    ensures JudgeAll(x, claims, [a, b]).Ok? && |JudgeAll(x, claims, [a, b]).value| == 2
  {
    assert [a, b][..1] == [a] && [a][..0] == [] && [a, b][1] == b;
    assert JudgeAll(x, claims, [a]) == Ok([] + [Judge(x, claims, a).value.value]);
  }

  /** Such an input: one record ID at revisions 1 and 2, one revision for each family. */
  function Twin(family: string, revision: nat): SourceRecord {
    SourceRecord(
      "record", "source", family, revision, ("title", "text"), "title", "text", "url", "publisher", None, None, 0, None,
      "rights", UnknownTime, Scope(Production, None))
  }

  lemma TwinsExist(x: Inputs)
    requires x.records == [Twin("first", 1), Twin("second", 2)] && x.reviews == map[]
    requires (forall r :: x.rules(r).None?) && forall f :: x.eventOf(f) == "event"
    ensures Indexable(x.records) && Assess(x, map[]).Ok? && |Assess(x, map[]).value| == 1 && Construct(x, map[]).Err?
  {
    var a, b := Twin("first", 1), Twin("second", 2);
    assert !IsSpace('r') && !IsSpace('p') && !IsSpace('t');
    assert a.rights[0] == 'r' && a.publisher[0] == 'p' && a.excerpt[0] == 't';
    assert FamilyOf(a).1 == "first" && FamilyOf(b).1 == "second" && "first"[0] != "second"[0];
    SharedIdInvalid(x, map[], a, b);
  }

  // ---- model output does not decide a refusal either ----

  lemma AlikeSupport(a: seq<Judged>, b: seq<Judged>)
    requires AllAlike(a, b)
    ensures Support(a) == Support(b)
  {
    forall k | 0 <= k < |a| ensures Support(a)[k] == Support(b)[k] { assert Alike(a[k], b[k]); }
  }

  lemma ConstructedAlike(x: Inputs, a: seq<Event>, b: seq<Event>, id: string, j: seq<Judged>, k: seq<Judged>)
    requires EventsAlike(Ok(a), Ok(b)) && j != [] && AllAlike(j, k) && QuotesOwn(j) && QuotesOwn(k)
    ensures EventsAlike(Constructed(x, a, Conclude(x, id, j)), Constructed(x, b, Conclude(x, id, k)))
  {
    AlikeSupport(j, k);
    ConcludedIffDistinct(x, id, j);
    ConcludedIffDistinct(x, id, k);
    ConcludeAlike(x, id, j, k);
    AppendAlike(a, b, Conclude(x, id, j), Conclude(x, id, k));
  }

  lemma {:induction false} ConstructGroupsAlike(x: Inputs, c: Claims, d: Claims, groups: seq<Group>)
    requires Filed(x, c) && Filed(x, d)
    ensures EventsAlike(ConstructGroups(x, c, groups), ConstructGroups(x, d, groups))
    decreases |groups|
  {
    if groups != [] {
      var rest, last := groups[..|groups| - 1], groups[|groups| - 1];
      ConstructGroupsAlike(x, c, d, rest);
      JudgeAllAlike(x, c, d, last.records);
      var a, b := JudgeAll(x, c, last.records), JudgeAll(x, d, last.records);
      if ConstructGroups(x, c, rest).Ok? && a.Ok? && a.value != [] {
        JudgedFiled(x, c, last.records);
        JudgedFiled(x, d, last.records);
        ConstructedAlike(x, ConstructGroups(x, c, rest).value, ConstructGroups(x, d, rest).value, last.eventId, a.value, b.value);
      }
    }
  }

  /** Main result, through construction: no model output changes a severity or whether the assessment is answered. */
  lemma ClaimsNeverChangeAnswer(x: Inputs, c: Claims, d: Claims)
    requires Filed(x, c) && Filed(x, d)
    ensures EventsAlike(Construct(x, c), Construct(x, d))
  {
    ConstructGroupsAlike(x, c, d, Groups(x.eventOf, Latest(x.records)));
  }
}
