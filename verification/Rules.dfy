module Rules {
  /** The unique-match search of approved publication rules (`intelligence/rules.py`).

  Word matching (`contains`: literal, case-folded, at word boundaries) and the list of blocking words are
  parameters of the search. */

  import opened Common
  import opened Contracts
  import opened FragmentView
  import opened OccurrenceView

  // ---- clauses ----

  predicate Ender(c: char) { c == '.' || c == '!' || c == '?' || c == '。' || c == '！' || c == '？' }

  predicate Breaks(c: char) { Ender(c) || c == '\n' }

  /** `lo..hi` is a clause of the text: as many characters as possible that do not break, and an ender if one follows. */
  datatype Span = Span(lo: nat, hi: nat)

  function BodyEnd(text: string, i: nat): (j: nat)
    requires i <= |text|
    ensures i <= j <= |text| && (forall k :: i <= k < j ==> !Breaks(text[k])) && (j < |text| ==> Breaks(text[j]))
    decreases |text| - i
  {
    if i == |text| || Breaks(text[i]) then i else BodyEnd(text, i + 1)
  }

  function ClauseEnd(text: string, i: nat): (j: nat)
    requires i <= |text|
    ensures i <= j <= |text|
  {
    var j := BodyEnd(text, i);
    if j < |text| && Ender(text[j]) then j + 1 else j
  }

  predicate IsClause(text: string, s: Span) {
    s.lo < s.hi <= |text| && (s.lo == 0 || Breaks(text[s.lo - 1])) && !Breaks(text[s.lo]) && s.hi == ClauseEnd(text, s.lo)
  }

  /** The matches of the clause pattern from a position that starts the text or follows a break. */
  function Clauses(text: string, from: nat): (r: seq<Span>)
    requires from <= |text|
    ensures forall k :: 0 <= k < |r| ==> r[k].lo <= r[k].hi <= |text|
    decreases |text| - from
  {
    if from == |text| then []
    else if Breaks(text[from]) then Clauses(text, from + 1)
    else
      assert BodyEnd(text, from) > from;
      [Span(from, ClauseEnd(text, from))] + Clauses(text, ClauseEnd(text, from))
  }

  lemma {:induction false} ClausesAre(text: string, from: nat)
    requires from <= |text| && (from == 0 || from == |text| || Breaks(text[from - 1]) || Breaks(text[from]))
    ensures forall k :: 0 <= k < |Clauses(text, from)| ==> IsClause(text, Clauses(text, from)[k])
    decreases |text| - from
  {
    if from < |text| {
      if Breaks(text[from]) {
        ClausesAre(text, from + 1);
      } else {
        assert BodyEnd(text, from) > from;
        ClausesAre(text, ClauseEnd(text, from));
      }
    }
  }

  function ClauseText(text: string, s: Span): string
    requires s.lo <= s.hi <= |text|
  {
    Strip(text[s.lo..s.hi])
  }

  /** The list the search walks through. */
  function ClauseTexts(text: string): seq<string> {
    var spans := Clauses(text, 0);
    seq(|spans|, j requires 0 <= j < |spans| => ClauseText(text, spans[j]))
  }

  /** A stripped clause stands in the text. */
  lemma ClauseStands(text: string, s: Span)
    requires IsClause(text, s) && !Blank(text[s.lo..s.hi])
    ensures var raw := text[s.lo..s.hi];
            var lo, hi := s.lo + Start(raw), s.lo + End(raw);
            lo < hi <= s.hi && ClauseText(text, s) == text[lo..hi] && !Blank(ClauseText(text, s))
  {
    var raw := text[s.lo..s.hi];
    Edges(raw);
    SliceOfSlice(text, s.lo, s.hi, Start(raw), End(raw));
    assert raw[Start(raw)..End(raw)][0] == raw[Start(raw)];
  }

  lemma SpaceInBody(c: char)
    requires IsSpace(c)
    ensures !Ender(c) && (Delimiter(c) ==> Breaks(c))
  {
  }

  lemma GapSpaces(text: string, lo: nat, hi: nat, raw: string)
    requires lo <= hi <= |text| && raw == text[lo..hi]
    ensures forall k :: lo <= k < lo + Start(raw) ==> IsSpace(text[k])
    ensures forall k :: lo + End(raw) <= k < hi ==> IsSpace(text[k])
  {
    var a, b := Start(raw), End(raw);
    forall k | lo <= k < lo + a ensures IsSpace(text[k]) { assert text[k] == raw[k - lo]; }
    forall k | lo + b <= k < hi ensures IsSpace(text[k]) { assert text[k] == raw[k - lo]; }
  }

  lemma SpacePlain(text: string, s: Span, k: nat)
    requires IsClause(text, s) && s.lo <= k < s.hi && IsSpace(text[k])
    ensures !Delimiter(text[k])
  {
    SpaceInBody(text[k]);
    assert k < BodyEnd(text, s.lo);
  }

  lemma GapsPlain(text: string, s: Span, raw: string)
    requires IsClause(text, s) && raw == text[s.lo..s.hi] && !Blank(raw)
    ensures Start(raw) < End(raw) <= |raw|
    ensures Gap(Casualties, text, s.lo, s.lo + Start(raw)) && Gap(Casualties, text, s.lo + End(raw), s.hi)
  {
    Edges(raw);
    GapSpaces(text, s.lo, s.hi, raw);
    var a, b := s.lo + Start(raw), s.lo + End(raw);
    forall k | s.lo <= k < a ensures !Delimiter(text[k]) { SpacePlain(text, s, k); }
    forall k | b <= k < s.hi ensures !Delimiter(text[k]) { SpacePlain(text, s, k); }
  }

  lemma EnderEnds(text: string, s: Span, raw: string)
    requires IsClause(text, s) && raw == text[s.lo..s.hi] && !Blank(raw)
    ensures s.hi == |text| || Breaks(text[s.hi]) || (Ender(text[s.hi - 1]) && End(raw) == |raw|)
  {
    var body := BodyEnd(text, s.lo);
    if s.hi == body + 1 { assert raw[|raw| - 1] == text[body]; }
  }

  lemma BreakDelimits(c: char)
    requires Breaks(c)
    ensures Delimiter(c)
  {
  }

  lemma ClauseCut(text: string, s: Span, raw: string, lo: nat, hi: nat)
    requires IsClause(text, s) && raw == text[s.lo..s.hi] && !Blank(raw)
    requires lo == s.lo + Start(raw) && hi == s.lo + End(raw)
    ensures CutAndTrimmed(Casualties, text, s.lo, lo, hi, s.hi)
  {
    GapsPlain(text, s, raw);
    EnderEnds(text, s, raw);
    if s.lo > 0 { BreakDelimits(text[s.lo - 1]); }
    if s.hi < |text| {
      if Breaks(text[s.hi]) { BreakDelimits(text[s.hi]); } else { BreakDelimits(text[s.hi - 1]); }
    }
  }

  lemma Shifted(whole: string, a: string, d: string, b: string, lo: nat, hi: nat)
    requires whole == a + d + b && lo <= hi <= |b|
    ensures whole[|a| + |d| + lo..|a| + |d| + hi] == b[lo..hi]
  {
  }

  /** The view a rule reads of one clause is that clause's part of the view of the whole excerpt, and of the view of
      title and excerpt together: the two views of the search agree. */
  lemma ClauseViewAgrees(title: string, text: string, s: Span, lo: nat, hi: nat)
    requires IsClause(text, s) && !Blank(text[s.lo..s.hi])
    requires lo == s.lo + Start(text[s.lo..s.hi]) && hi == s.lo + End(text[s.lo..s.hi])
    ensures lo <= hi <= |text| && ClauseText(text, s) == text[lo..hi]
    ensures var whole, shift := Context(title + "\n" + text), |title| + 1;
            && |Context(text)| == |text| && shift + hi <= |whole|
            && Context(text[lo..hi]) == Context(text)[lo..hi] == whole[shift + lo..shift + hi]
  {
    ClauseStands(text, s);
    ClauseInViews(title, text, s, text[s.lo..s.hi], lo, hi);
  }

  lemma ClauseInViews(title: string, text: string, s: Span, raw: string, lo: nat, hi: nat)
    requires IsClause(text, s) && raw == text[s.lo..s.hi] && !Blank(raw)
    requires lo == s.lo + Start(raw) && hi == s.lo + End(raw)
    ensures var whole, shift := Context(title + "\n" + text), |title| + 1;
            && lo <= hi <= |text| == |Context(text)| && shift + hi <= |whole|
            && Context(text[lo..hi]) == Context(text)[lo..hi] == whole[shift + lo..shift + hi]
  {
    ClauseInText(text, s, raw, lo, hi);
    TitleViewAgrees(title, text, lo, hi);
  }

  lemma ClauseInText(text: string, s: Span, raw: string, lo: nat, hi: nat)
    requires IsClause(text, s) && raw == text[s.lo..s.hi] && !Blank(raw)
    requires lo == s.lo + Start(raw) && hi == s.lo + End(raw)
    ensures lo <= hi <= |text| == |Context(text)| && Context(text)[lo..hi] == Context(text[lo..hi])
  {
    ClauseCut(text, s, raw, lo, hi);
    ClauseView(text, s.lo, lo, hi, s.hi);
  }

  lemma TitleViewAgrees(title: string, text: string, lo: nat, hi: nat)
    requires lo <= hi <= |text|
    ensures var whole, shift := Context(title + "\n" + text), |title| + 1;
            |Context(text)| == |text| && shift + hi <= |whole| && Context(text)[lo..hi] == whole[shift + lo..shift + hi]
  {
    ContextSplits(title, '\n', text);
    ContextKeeps(title);
    Shifted(Context(title + "\n" + text), Context(title), "\n", Context(text), lo, hi);
  }

  // ---- rules ----

  type Matcher = (string, string) -> bool

  datatype Rule = Rule(
    ruleId: string, sourceId: string, publisher: string, facilities: seq<string>, groups: seq<seq<string>>,
    exclusions: seq<string>, maxAgeMinutes: nat, severity: Severity, status: EvidenceStatus)

  /** Approval carries its scope; without one nothing matches. */
  datatype Approval = Approval(validFrom: Time, expiresAt: Time, provenances: seq<Provenance>)

  datatype ApprovedRules = ApprovedRules(approval: Option<Approval>, rules: seq<Rule>)

  datatype RuleMatch = RuleMatch(
    reference: Ref, severity: Severity, status: EvidenceStatus, occurredAt: Option<Time>, ruleId: string)

  predicate AnyTerm(contains: Matcher, text: string, terms: seq<string>) {
    exists i :: 0 <= i < |terms| && contains(text, terms[i])
  }

  function CountTerms(contains: Matcher, text: string, terms: seq<string>): nat {
    if terms == [] then 0 else (if contains(text, terms[0]) then 1 else 0) + CountTerms(contains, text, terms[1..])
  }

  /** The record may be matched at all. */
  predicate Admissible(a: ApprovedRules, r: SourceRecord, now: Time, contains: Matcher, blocked: string -> bool) {
    var text := r.title + "\n" + r.excerpt;
    && a.approval.Some? && a.approval.value.validFrom <= now < a.approval.value.expiresAt
    && r.scope.provenance in a.approval.value.provenances
    && r.quality == ValidTime
    && r.publishedAt.Some? && r.publishedAt.value <= now && r.discoveredAt <= now
    && (r.occurredAt.Some? ==> r.occurredAt.value <= now)
    && '?' !in text && '？' !in text
    && !blocked(Context(text))
    && |Clauses(r.excerpt, 0)| <= 32
  }

  predicate RuleApplies(rule: Rule, r: SourceRecord, now: Time, contains: Matcher)
    requires r.publishedAt.Some?
  {
    && r.sourceId == rule.sourceId && r.publisher == rule.publisher
    && r.publishedAt.value >= now - 60 * rule.maxAgeMinutes
    && (r.occurredAt.Some? ==> r.occurredAt.value >= now - 60 * rule.maxAgeMinutes)
    && !AnyTerm(contains, r.title + "\n" + r.excerpt, rule.exclusions)
  }

  /** Exactly one facility, and every group of criteria, in the clause's own view. */
  predicate ClauseMeets(rule: Rule, clause: string, contains: Matcher) {
    && 0 < |clause| <= 1800
    && CountTerms(contains, Context(clause), rule.facilities) == 1
    && forall g :: 0 <= g < |rule.groups| ==> AnyTerm(contains, Context(clause), rule.groups[g])
  }

  predicate Qualifies(a: ApprovedRules, r: SourceRecord, now: Time, contains: Matcher, i: nat, j: nat)
    requires r.publishedAt.Some?
  {
    && i < |a.rules| && j < |ClauseTexts(r.excerpt)|
    && RuleApplies(a.rules[i], r, now, contains)
    && ClauseMeets(a.rules[i], ClauseTexts(r.excerpt)[j], contains)
  }

  function MatchOf(rule: Rule, r: SourceRecord, clause: string): RuleMatch {
    RuleMatch(
      Ref(r.recordId, r.revision, ContentExcerpt, clause), rule.severity, rule.status, r.occurredAt, rule.ruleId)
  }

  function PairMatch(a: ApprovedRules, r: SourceRecord, i: nat, j: nat): RuleMatch
    requires i < |a.rules| && j < |ClauseTexts(r.excerpt)|
  {
    MatchOf(a.rules[i], r, ClauseTexts(r.excerpt)[j])
  }

  function Pairs(a: ApprovedRules, r: SourceRecord, now: Time, contains: Matcher): (nat, nat) -> bool
    requires r.publishedAt.Some?
  {
    (i: nat, j: nat) => Qualifies(a, r, now, contains, i, j)
  }

  /** The one pair that qualifies. */
  ghost predicate Only(qualifies: (nat, nat) -> bool, i: nat, j: nat) {
    qualifies(i, j) && forall i': nat, j': nat :: qualifies(i', j') ==> i' == i && j' == j
  }

  /** A match's excerpt is a nonblank part of the record it names, so reference validation accepts it. */
  lemma MatchReferenceValid(a: ApprovedRules, r: SourceRecord, now: Time, contains: Matcher, i: nat, j: nat)
    requires r.publishedAt.Some? && Qualifies(a, r, now, contains, i, j)
    ensures ValidReference(PairMatch(a, r, i, j).reference, map[KeyOf(r) := r])
    ensures |PairMatch(a, r, i, j).reference.excerpt| <= 1800
  {
    ClausesAre(r.excerpt, 0);
    ClauseWithin(r.excerpt, Clauses(r.excerpt, 0)[j]);
  }

  lemma StandsIn(part: string, text: string, lo: nat, hi: nat)
    requires lo <= hi <= |text| && part == text[lo..hi]
    ensures Within(part, text)
  {
    assert StandsAt(part, text, lo);
  }

  lemma InkLeft(raw: string)
    requires Strip(raw) != ""
    ensures !Blank(raw)
  {
  }

  lemma ClauseWithin(text: string, s: Span)
    requires IsClause(text, s) && ClauseText(text, s) != ""
    ensures Within(ClauseText(text, s), text) && !Blank(ClauseText(text, s))
  {
    InkLeft(text[s.lo..s.hi]);
    ClauseStands(text, s);
    StandsIn(ClauseText(text, s), text, s.lo + Start(text[s.lo..s.hi]), s.lo + End(text[s.lo..s.hi]));
  }

  /** Pairs seen so far by the nested loops, in order. */
  ghost predicate Seen(i: nat, j: nat, rule: nat, clause: nat) { i < rule || (i == rule && j < clause) }

  /** The qualifying pairs seen so far, each once. */
  ghost predicate Found(found: seq<(nat, nat)>, qualifies: (nat, nat) -> bool, rule: nat, clause: nat) {
    && Distinct(found)
    && forall i: nat, j: nat :: (i, j) in found <==> qualifies(i, j) && Seen(i, j, rule, clause)
  }

  ghost predicate Built(matches: seq<RuleMatch>, found: seq<(nat, nat)>, rules: seq<Rule>, r: SourceRecord, clauses: seq<string>) {
    && |matches| == |found|
    && forall k :: 0 <= k < |found| ==>
         found[k].0 < |rules| && found[k].1 < |clauses| && matches[k] == MatchOf(rules[found[k].0], r, clauses[found[k].1])
  }

  /** The inner loop: one applicable rule over all clauses. */
  method MatchClauses(
    rules: seq<Rule>, i: nat, r: SourceRecord, clauses: seq<string>, contains: Matcher, matches: seq<RuleMatch>,
    ghost found: seq<(nat, nat)>, ghost qualifies: (nat, nat) -> bool)
    returns (matches': seq<RuleMatch>, ghost found': seq<(nat, nat)>)
    requires i < |rules| && Found(found, qualifies, i, 0) && Built(matches, found, rules, r, clauses)
    requires forall j: nat :: qualifies(i, j) <==> j < |clauses| && ClauseMeets(rules[i], clauses[j], contains)
    ensures Found(found', qualifies, i + 1, 0) && Built(matches', found', rules, r, clauses)
  {
    matches', found' := matches, found;
    var j := 0;
    while j < |clauses|
      invariant j <= |clauses|
      invariant Found(found', qualifies, i, j) && Built(matches', found', rules, r, clauses)
    {
      if ClauseMeets(rules[i], clauses[j], contains) {
        assert (i, j) !in found';
        matches' := matches' + [MatchOf(rules[i], r, clauses[j])];
        found' := found' + [(i, j)];
      }
      j := j + 1;
    }
  }

  /** `match`: something is returned exactly when one (rule, clause) pair qualifies, and then it is that pair's match. */
  method Match(a: ApprovedRules, r: SourceRecord, now: Time, contains: Matcher, blocked: string -> bool)
    returns (res: Option<RuleMatch>)
    ensures res.Some? ==> Admissible(a, r, now, contains, blocked)
    ensures Admissible(a, r, now, contains, blocked) ==>
              (res.Some? <==> exists i: nat, j: nat :: Only(Pairs(a, r, now, contains), i, j))
    ensures forall i: nat, j: nat ::
              Admissible(a, r, now, contains, blocked) && Only(Pairs(a, r, now, contains), i, j) ==> res == Some(PairMatch(a, r, i, j))
  {
    if !Admissible(a, r, now, contains, blocked) {
      return None;
    }
    var clauses := ClauseTexts(r.excerpt);
    var matches: seq<RuleMatch> := [];
    ghost var found: seq<(nat, nat)> := [];
    ghost var qualifies := Pairs(a, r, now, contains);
    var i := 0;
    while i < |a.rules|
      invariant i <= |a.rules|
      invariant Found(found, qualifies, i, 0) && Built(matches, found, a.rules, r, clauses)
    {
      if RuleApplies(a.rules[i], r, now, contains) {
        matches, found := MatchClauses(a.rules, i, r, clauses, contains, matches, found, qualifies);
      }
      i := i + 1;
    }
    OneFound(found, qualifies, |a.rules|);
    res := if |matches| == 1 then Some(matches[0]) else None;
  }

  lemma OnlyOne<T>(s: seq<T>, x: T)
    requires Distinct(s) && x in s && forall k :: 0 <= k < |s| ==> s[k] == x
    ensures s == [x]
  {
    if |s| >= 2 { Repeats(s, x); }
  }

  lemma Repeats<T>(s: seq<T>, x: T)
    requires |s| >= 2 && forall k :: 0 <= k < |s| ==> s[k] == x
    ensures !Distinct(s)
  {
    assert s[0] == s[1];
  }

  lemma UniqueFound(found: seq<(nat, nat)>, qualifies: (nat, nat) -> bool, i: nat, j: nat)
    requires Distinct(found) && (forall a: nat, b: nat :: (a, b) in found <==> qualifies(a, b)) && Only(qualifies, i, j)
    ensures found == [(i, j)]
  {
    assert (i, j) in found;
    forall k | 0 <= k < |found| ensures found[k] == (i, j) { assert (found[k].0, found[k].1) in found; }
    OnlyOne(found, (i, j));
  }

  lemma OneFound(found: seq<(nat, nat)>, qualifies: (nat, nat) -> bool, rules: nat)
    requires Found(found, qualifies, rules, 0) && forall i: nat, j: nat :: qualifies(i, j) ==> i < rules
    ensures |found| == 1 <==> exists i: nat, j: nat :: Only(qualifies, i, j)
    ensures forall i: nat, j: nat :: Only(qualifies, i, j) ==> found == [(i, j)]
  {
    forall i: nat, j: nat | Only(qualifies, i, j) ensures found == [(i, j)] { UniqueFound(found, qualifies, i, j); }
    if |found| == 1 {
      var i, j := found[0].0, found[0].1;
      assert (i, j) in found;
      forall i': nat, j': nat | qualifies(i', j') ensures i' == i && j' == j { assert (i', j') in found; }
      assert Only(qualifies, i, j);
    }
  }
}
