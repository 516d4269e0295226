/** The byte-preserving member splice of `runtime/c1_private.py`: one blank top-level member of a JSON
object is set in the text itself, everything else stays as it was written. */
module JsonSplice {
  import opened Common
  import opened JsonText

  const AllowedFields: set<string> :=
    {"tenant_key", "database_password", "database_container_id", "exercise_start", "personal_status_scope"}

  function Units(s: string): seq<Unit> {
    if s == "" then [] else RawUnits(s[0]) + Units(s[1..])
  }

  // ---- the meaning of the edit ----

  function FirstValue(members: seq<Member>, key: seq<Unit>): Option<Value> {
    if members == [] then None
    else if members[0].key == key then Some(members[0].value)
    else FirstValue(members[1..], key)
  }

  /** The object with one member set: in place if it exists, at the end otherwise. */
  function SetMember(members: seq<Member>, key: seq<Unit>, v: Value): seq<Member> {
    if members == [] then [Member(key, v)]
    else if members[0].key == key then [Member(key, v)] + members[1..]
    else [members[0]] + SetMember(members[1..], key, v)
  }

  // ---- where the edit goes ----

  /** Replace `[start, end)`; `adds` means that a whole member is inserted there. */
  datatype Place = Place(start: nat, end: nat, adds: bool) | Taken

  function MemberPlace(s: string, i: nat, key: seq<Unit>): (p: Place)
    requires ScanMembers(s, i).Got?
    ensures p.Place? ==> i < p.start <= p.end < ScanMembers(s, i).end
    decreases |s| - i, 0
  {
    MembersParts(s, i);
    var k := ScanKey(s, i);
    var value := ScanValue(s, k.end);
    if k.value == key then (if value.value.Null? then Place(k.end, value.end, false) else Taken)
    else TailPlace(s, value.end, key)
  }

  function TailPlace(s: string, i: nat, key: seq<Unit>): (p: Place)
    requires i <= |s| && ScanMemberTail(s, i).Got?
    ensures p.Place? ==> i <= p.start <= p.end < ScanMemberTail(s, i).end
    decreases |s| - i, 0
  {
    var t := SkipWhite(s, i);
    if At(s, t, '}') then Place(t, t, true) else MemberPlace(s, SkipWhite(s, t + 1), key)
  }

  lemma FirstValueStep(m: Member, rest: seq<Member>, key: seq<Unit>)
    ensures FirstValue([m] + rest, key) == if m.key == key then Some(m.value) else FirstValue(rest, key)
  {
    assert ([m] + rest)[1..] == rest;
  }

  predicate IsTaken(first: Option<Value>) { first.Some? && first.value != Null }

  /** The source refuses exactly when the first member of that name has a value. */
  lemma {:induction false} PlaceExists(s: string, i: nat, key: seq<Unit>)
    requires ScanMembers(s, i).Got?
    ensures MemberPlace(s, i, key).Taken? <==> IsTaken(FirstValue(ScanMembers(s, i).value, key))
    decreases |s| - i, 0
  {
    MembersParts(s, i);
    var k := ScanKey(s, i);
    var value := ScanValue(s, k.end);
    FirstValueStep(Member(k.value, value.value), ScanMemberTail(s, value.end).value, key);
    if k.value != key { TailPlaceExists(s, value.end, key); }
  }

  lemma {:induction false} TailPlaceExists(s: string, i: nat, key: seq<Unit>)
    requires i <= |s| && ScanMemberTail(s, i).Got?
    ensures TailPlace(s, i, key).Taken? <==> IsTaken(FirstValue(ScanMemberTail(s, i).value, key))
    decreases |s| - i, 1
  {
    var t := SkipWhite(s, i);
    if !At(s, t, '}') {
      TailComma(s, i, key);
      PlaceExists(s, SkipWhite(s, t + 1), key);
    }
  }

  // ---- the edited text ----

  /** `s2` is `s` with `[start, end)` replaced by `ins`. */
  predicate Edited(s: string, s2: string, start: nat, end: nat, ins: string) {
    && start <= end <= |s| && |s2| == |s| - (end - start) + |ins|
    && Repeats(s, s2, 0, start, 0)
    && Repeats(ins, s2, 0, |ins|, start)
    && Repeats(s, s2, end, |s|, |ins| - (end - start))
  }

  lemma EditedBy(s: string, start: nat, end: nat, ins: string)
    requires start <= end <= |s|
    ensures Edited(s, s[..start] + ins + s[end..], start, end, ins)
  {
  }

  /** The inserted text: the value alone, or a whole member after a separator. */
  predicate Inserts(ins: string, sep: string, key: seq<Unit>, written: string, adds: bool) {
    ins == if adds then sep + (DumpString(key) + (":" + written)) else written
  }

  predicate Scans(written: string, v: Value) {
    written != "" && ScanValue(written, 0) == Got(v, |written|)
  }

  /** The text of a member as the splice writes it. */
  lemma FreshText(key: seq<Unit>, written: string, v: Value)
    requires Scans(written, v)
    ensures MemberText(DumpString(key) + (":" + written), |DumpString(key)| + 1, Member(key, v))
  {
    var q := DumpString(key);
    var text := q + (":" + written);
    StringScans(key);
    ValueHead(written, 0);
    assert Repeats(q, text, 0, |q|, 0) && text[|q|] == ':' && Repeats(written, text, 0, |written|, |q| + 1);
    FreshKey(text, q, key, written, v);
  }

  lemma KeyRead(text: string, q: string, key: seq<Unit>)
    requires q != "" && q[0] == '"' && ScanString(q, 1) == Got(key, |q|)
    requires Repeats(q, text, 0, |q|, 0) && At(text, |q|, ':') && |q| + 1 < |text| && !IsWhite(text[|q| + 1])
    ensures At(text, 0, '"') && ScanString(text, 1) == Got(key, |q|)
    ensures SkipWhite(text, |q|) == |q| && SkipWhite(text, |q| + 1) == |q| + 1
  {
    StringLocal(q, text, 1, |q|, 0);
    assert text[0 + 0] == q[0];
  }

  lemma ValueRead(text: string, at: nat, written: string, v: Value)
    requires Repeats(written, text, 0, |written|, at) && |text| == at + |written| && Scans(written, v)
    ensures ScanValue(text, at) == Got(v, |text|) && at < |text| && !IsWhite(text[at])
  {
    ValueHead(written, 0);
    assert text[0 + at] == written[0];
    ValueLocal(written, text, 0, at);
  }

  lemma FreshKey(text: string, q: string, key: seq<Unit>, written: string, v: Value)
    requires q != "" && q[0] == '"' && ScanString(q, 1) == Got(key, |q|)
    requires Repeats(q, text, 0, |q|, 0) && At(text, |q|, ':') && Repeats(written, text, 0, |written|, |q| + 1)
    requires Scans(written, v) && |text| == |q| + 1 + |written|
    ensures MemberText(text, |q| + 1, Member(key, v))
  {
    ValueRead(text, |q| + 1, written, v);
    KeyRead(text, q, key);
  }

  lemma MemberStep(s: string, i: nat, key: seq<Unit>, k: nat, v: Value, e: nat, ms: seq<Member>, end: nat)
    requires ScanKey(s, i) == Got(key, k) && ScanValue(s, k) == Got(v, e) && ScanMemberTail(s, e) == Got(ms, end)
    ensures ScanMembers(s, i) == Got([Member(key, v)] + ms, end)
  {
  }

  /** A member whose value is replaced. */
  lemma MemberReplaced(
    s: string, s2: string, i: nat, key: seq<Unit>, k: nat, e: nat, ms: seq<Member>, end: nat, written: string, v: Value)
    requires ScanKey(s, i) == Got(key, k) && k <= e <= |s| && ScanMemberTail(s, e) == Got(ms, end)
    requires Scans(written, v) && Edited(s, s2, k, e, written)
    ensures end + |s2| >= |s| && ScanMembers(s2, i) == Got([Member(key, v)] + ms, end + |s2| - |s|)
  {
    var d := |s2| - |s|;
    ValueReplaced(s, s2, k, e, ms, end, written, v);
    ValueHead(written, 0);
    assert s2[0 + k] == written[0];
    KeyKept(s, s2, i, key, k);
    MemberStep(s2, i, key, k, v, e + d, ms, end + d);
  }

  lemma ValueReplaced(s: string, s2: string, k: nat, e: nat, ms: seq<Member>, end: nat, written: string, v: Value)
    requires k <= e <= |s| && ScanMemberTail(s, e) == Got(ms, end)
    requires Scans(written, v) && Edited(s, s2, k, e, written)
    ensures var d := |s2| - |s|;
            e + d >= 0 && ScanValue(s2, k) == Got(v, e + d) && ScanMemberTail(s2, e + d) == Got(ms, end + d)
  {
    var d := |s2| - |s|;
    TailShifted(s, s2, e, d, ms, end);
    ValueAt(s, s2, k, e, written, v);
  }

  lemma ValueAt(s: string, s2: string, k: nat, e: nat, written: string, v: Value)
    requires Edited(s, s2, k, e, written) && Scans(written, v) && Stops(s2, k + |written|)
    ensures ScanValue(s2, k) == Got(v, k + |written|)
  {
    ValueWritten(s2, k, written, v);
  }

  lemma TailShifted(s: string, s2: string, e: nat, d: int, ms: seq<Member>, end: nat)
    requires e <= |s| && ScanMemberTail(s, e) == Got(ms, end) && Repeats(s, s2, e, |s|, d)
    ensures end + d >= 0 && ScanMemberTail(s2, e + d) == Got(ms, end + d) && Stops(s2, e + d)
  {
    TailStops(s, e);
    assert s2[e + d] == s[e];
    MemberTailLocal(s, s2, e, d);
  }

  lemma ValueWritten(s2: string, k: nat, written: string, v: Value)
    requires Scans(written, v) && Repeats(written, s2, 0, |written|, k) && Stops(s2, k + |written|)
    ensures ScanValue(s2, k) == Got(v, k + |written|)
  {
    ValueLocal(written, s2, 0, k);
  }

  /** A member in front of the edit. */
  lemma MemberKept(
    s: string, s2: string, i: nat, start: nat, m: Member, k: nat, e: nat, ms: seq<Member>, end: nat)
    requires start <= |s| && Repeats(s, s2, 0, start, 0) && k <= e <= start && e <= |s2|
    requires ScanKey(s, i) == Got(m.key, k) && ScanValue(s, k) == Got(m.value, e)
    requires Stops(s2, e) && ScanMemberTail(s2, e) == Got(ms, end)
    ensures ScanMembers(s2, i) == Got([m] + ms, end)
  {
    ValueKept(s, s2, k, m.value, e);
    KeyKept(s, s2, i, m.key, k);
    MemberStep(s2, i, m.key, k, m.value, e, ms, end);
  }

  lemma ValueKept(s: string, s2: string, k: nat, v: Value, e: nat)
    requires k <= e <= |s2| && Repeats(s, s2, 0, e, 0) && Stops(s2, e)
    requires ScanValue(s, k) == Got(v, e)
    ensures ScanValue(s2, k) == Got(v, e) && k < |s2| && !IsWhite(s2[k])
  {
    ValueHead(s, k);
    assert s2[k + 0] == s[k];
    ValueLocal(s, s2, k, 0);
  }

  lemma KeyKept(s: string, s2: string, i: nat, key: seq<Unit>, k: nat)
    requires ScanKey(s, i) == Got(key, k) && Repeats(s, s2, 0, k, 0)
    requires k < |s2| && !IsWhite(s2[k])
    ensures ScanKey(s2, i) == Got(key, k)
  {
    KeyLocal(s, s2, i, 0);
  }

  lemma SetStep(m: Member, rest: seq<Member>, key: seq<Unit>, v: Value)
    ensures SetMember([m] + rest, key, v) == if m.key == key then [Member(key, v)] + rest else [m] + SetMember(rest, key, v)
  {
    assert ([m] + rest)[1..] == rest;
  }

  /** The member at `i` has the name. */
  lemma EditedHere(s: string, s2: string, i: nat, key: seq<Unit>, written: string, v: Value)
    requires ScanMembers(s, i).Got? && Scans(written, v) && ScanKey(s, i).Got? && ScanKey(s, i).value == key
    requires ScanValue(s, ScanKey(s, i).end).Got?
    requires Edited(s, s2, ScanKey(s, i).end, ScanValue(s, ScanKey(s, i).end).end, written)
    ensures ScanMembers(s, i).end + |s2| >= |s|
    ensures ScanMembers(s2, i) == Got(SetMember(ScanMembers(s, i).value, key, v), ScanMembers(s, i).end + |s2| - |s|)
  {
    MembersParts(s, i);
    var k := ScanKey(s, i);
    var value := ScanValue(s, k.end);
    var tail := ScanMemberTail(s, value.end);
    SetStep(Member(k.value, value.value), tail.value, key, v);
    MemberReplaced(s, s2, i, key, k.end, value.end, tail.value, tail.end, written, v);
  }

  /** The member at `i` has another name, and the edit is behind it. */
  lemma EditedLater(s: string, s2: string, i: nat, start: nat, key: seq<Unit>, v: Value, end: nat)
    requires ScanMembers(s, i).Got? && ScanKey(s, i).Got? && ScanKey(s, i).value != key
    requires ScanValue(s, ScanKey(s, i).end).Got? && ScanMemberTail(s, ScanValue(s, ScanKey(s, i).end).end).Got?
    requires var e := ScanValue(s, ScanKey(s, i).end).end;
             e <= start <= |s| && Repeats(s, s2, 0, start, 0) && Stops(s2, e) && e <= |s2|
             && ScanMemberTail(s2, e) == Got(SetMember(ScanMemberTail(s, e).value, key, v), end)
    ensures ScanMembers(s2, i) == Got(SetMember(ScanMembers(s, i).value, key, v), end)
  {
    MembersParts(s, i);
    var k := ScanKey(s, i);
    var value := ScanValue(s, k.end);
    var tail := ScanMemberTail(s, value.end);
    SetStep(Member(k.value, value.value), tail.value, key, v);
    MemberKept(s, s2, i, start, Member(k.value, value.value), k.end, value.end, SetMember(tail.value, key, v), end);
  }

  /** Reading the edited text from a member at `i` on. */
  lemma {:induction false} MembersEdited(
    s: string, s2: string, i: nat, key: seq<Unit>, written: string, v: Value, ins: string)
    requires ScanMembers(s, i).Got? && Scans(written, v)
    requires var p := MemberPlace(s, i, key);
             p.Place? && Inserts(ins, ",", key, written, p.adds) && Edited(s, s2, p.start, p.end, ins)
    ensures ScanMembers(s2, i) == Got(SetMember(ScanMembers(s, i).value, key, v), ScanMembers(s, i).end + |s2| - |s|)
    decreases |s| - i, 0
  {
    var p := MemberPlace(s, i, key);
    MembersParts(s, i);
    var k := ScanKey(s, i);
    var value := ScanValue(s, k.end);
    if k.value == key {
      EditedHere(s, s2, i, key, written, v);
    } else {
      TailEdited(s, s2, value.end, key, written, v, ins);
      EditedLater(s, s2, i, p.start, key, v, ScanMemberTail(s2, value.end).end);
    }
  }

  /** Reading the edited text from behind a member on. */
  lemma {:induction false} TailEdited(
    s: string, s2: string, i: nat, key: seq<Unit>, written: string, v: Value, ins: string)
    requires i <= |s| && ScanMemberTail(s, i).Got? && Scans(written, v)
    requires var p := TailPlace(s, i, key);
             p.Place? && Inserts(ins, ",", key, written, p.adds) && Edited(s, s2, p.start, p.end, ins)
    ensures ScanMemberTail(s2, i) == Got(SetMember(ScanMemberTail(s, i).value, key, v), ScanMemberTail(s, i).end + |s2| - |s|)
    ensures Stops(s2, i)
    decreases |s| - i, 2
  {
    if At(s, SkipWhite(s, i), '}') {
      TailEnd(s, i, key);
      InsertedTail(s, s2, i, key, written, v, ins);
    } else {
      TailComma(s, i, key);
      CommaEdited(s, s2, i, SkipWhite(s, SkipWhite(s, i) + 1), key, written, v, ins);
    }
  }

  lemma {:induction false} CommaEdited(
    s: string, s2: string, i: nat, u: nat, key: seq<Unit>, written: string, v: Value, ins: string)
    requires i < u <= |s| && At(s, SkipWhite(s, i), ',') && u == SkipWhite(s, SkipWhite(s, i) + 1)
    requires ScanMembers(s, u).Got? && Scans(written, v)
    requires var p := MemberPlace(s, u, key);
             p.Place? && Inserts(ins, ",", key, written, p.adds) && Edited(s, s2, p.start, p.end, ins)
    ensures ScanMemberTail(s2, i) == Got(SetMember(ScanMembers(s, u).value, key, v), ScanMembers(s, u).end + |s2| - |s|)
    ensures Stops(s2, i)
    decreases |s| - i, 1
  {
    MembersEdited(s, s2, u, key, written, v, ins);
    CommaKept(s, s2, i, MemberPlace(s, u, key).start);
  }

  lemma TailEnd(s: string, i: nat, key: seq<Unit>)
    requires i <= |s| && ScanMemberTail(s, i).Got? && At(s, SkipWhite(s, i), '}')
    ensures ScanMemberTail(s, i) == Got([], SkipWhite(s, i) + 1)
    ensures TailPlace(s, i, key) == Place(SkipWhite(s, i), SkipWhite(s, i), true)
  {
  }

  lemma TailComma(s: string, i: nat, key: seq<Unit>)
    requires i <= |s| && ScanMemberTail(s, i).Got? && !At(s, SkipWhite(s, i), '}')
    ensures var t := SkipWhite(s, i);
            && At(s, t, ',') && ScanMemberTail(s, i) == ScanMembers(s, SkipWhite(s, t + 1))
            && TailPlace(s, i, key) == MemberPlace(s, SkipWhite(s, t + 1), key)
  {
  }

  lemma CommaKept(s: string, s2: string, i: nat, start: nat)
    requires start <= |s| && Repeats(s, s2, 0, start, 0) && i <= |s| && At(s, SkipWhite(s, i), ',')
    requires SkipWhite(s, SkipWhite(s, i) + 1) < start && i <= |s2|
    ensures Stops(s2, i)
    ensures ScanMemberTail(s2, i) == ScanMembers(s2, SkipWhite(s, SkipWhite(s, i) + 1))
  {
    var t := SkipWhite(s, i);
    var u := SkipWhite(s, t + 1);
    assert s2[t + 0] == s[t] && s2[i + 0] == s[i] && s2[u + 0] == s[u];
    WhiteUpTo(s, s2, i, 0);
    WhiteUpTo(s, s2, t + 1, 0);
    AtComma(s2, i, t, u);
  }

  lemma AtComma(s: string, i: nat, t: nat, u: nat)
    requires i <= |s| && SkipWhite(s, i) == t && At(s, t, ',') && SkipWhite(s, t + 1) == u
    ensures ScanMemberTail(s, i) == ScanMembers(s, u)
  {
  }

  lemma InsertedTail(s: string, s2: string, i: nat, key: seq<Unit>, written: string, v: Value, ins: string)
    requires i <= |s| && At(s, SkipWhite(s, i), '}') && Scans(written, v)
    requires Inserts(ins, ",", key, written, true)
    requires Edited(s, s2, SkipWhite(s, i), SkipWhite(s, i), ins)
    ensures ScanMemberTail(s2, i) == Got([Member(key, v)], SkipWhite(s, i) + 1 + |ins|)
    ensures Stops(s2, i)
  {
    var t := SkipWhite(s, i);
    var text := DumpString(key) + (":" + written);
    assert ins[0] == ',' && ins[1..] == text;
    assert s2[0 + t] == ',';
    WhiteUpTo(s, s2, i, 0);
    assert i < t ==> s2[i + 0] == s[i];
    InsertedMember(s, s2, t, ins, ",", key, written, v);
    assert s2[t + 1] == '"' by { assert text[0] == '"' && s2[1 + t] == ins[1]; }
    assert SkipWhite(s2, t + 1) == t + 1;
  }

  /** A member inserted in front of the closing brace at `t`, behind the separator. */
  lemma InsertedMember(
    s: string, s2: string, t: nat, ins: string, sep: string, key: seq<Unit>, written: string, v: Value)
    requires At(s, t, '}') && Scans(written, v) && |sep| <= 1
    requires Inserts(ins, sep, key, written, true) && Edited(s, s2, t, t, ins)
    ensures ScanMembers(s2, t + |sep|) == Got([Member(key, v)], t + |ins| + 1)
  {
    PlacedInside(s, s2, t, ins, sep, ins[|sep|..]);
    FreshJoined(s2, t + |sep|, key, written, v, ins[|sep|..]);
  }

  lemma FreshJoined(s: string, at: nat, key: seq<Unit>, written: string, v: Value, text: string)
    requires text == DumpString(key) + (":" + written) && Scans(written, v) && Placed(text, "}", s, at)
    ensures ScanMembers(s, at) == Got([Member(key, v)], at + |text| + 1)
  {
    FreshText(key, written, v);
    JoinOne(s, at, text, |DumpString(key)| + 1, Member(key, v));
  }

  lemma JoinOne(s: string, at: nat, text: string, k: nat, m: Member)
    requires Placed(text, "}", s, at) && MemberText(text, k, m)
    ensures ScanMembers(s, at) == Got([m], at + |text| + 1)
  {
    MembersJoin(s, at, text, k, m, "}", []);
    assert [m] + [] == [m];
  }

  lemma PlacedInside(s: string, s2: string, t: nat, ins: string, sep: string, text: string)
    requires At(s, t, '}') && ins == sep + text && Edited(s, s2, t, t, ins)
    ensures Placed(text, "}", s2, t + |sep|)
  {
    forall k | 0 <= k < |text| ensures s2[k + (t + |sep|)] == text[k] {
      assert ins[k + |sep|] == text[k];
      assert s2[(k + |sep|) + t] == ins[k + |sep|];
    }
    assert s2[t + |ins|] == s[t];
  }

  // ---- whole documents ----

  predicate IsObject(text: string) {
    ParseDocument(text).Got? && ParseDocument(text).value.Obj?
  }

  function Members(text: string): seq<Member>
    requires IsObject(text)
  {
    ParseDocument(text).value.members
  }

  function Brace(text: string): (b: nat)
    requires IsObject(text)
    ensures b < |text|
  {
    SkipWhite(text, 0)
  }

  lemma DocumentParts(text: string)
    requires IsObject(text)
    ensures var b := Brace(text); var t := SkipWhite(text, b + 1);
            && At(text, b, '{') && ScanValue(text, b) == ScanObject(text, b)
            && ScanObject(text, b).Got? && SkipWhite(text, ScanObject(text, b).end) == |text|
            && (At(text, t, '}') <==> Members(text) == [])
            && (At(text, t, '}') ==> ScanObject(text, b).end == t + 1)
            && (!At(text, t, '}') ==> ScanMembers(text, t) == Got(Members(text), ScanObject(text, b).end))
  {
    var b := Brace(text);
    assert ScanValue(text, b).Got? && ScanValue(text, b).value == Obj(Members(text));
    assert text[b] == '{';
    ObjectCases(text, b);
    var t := SkipWhite(text, b + 1);
    if !At(text, t, '}') { MembersParts(text, t); }
  }

  /** Where the source edits the document. */
  function DocumentPlace(text: string, key: seq<Unit>): (p: Place)
    requires IsObject(text)
    ensures p.Place? ==> p.start <= p.end <= |text|
  {
    DocumentParts(text);
    var t := SkipWhite(text, Brace(text) + 1);
    if At(text, t, '}') then Place(t, t, true) else MemberPlace(text, t, key)
  }

  /** The separator the source writes: a comma unless only white space follows the first character. */
  function Separator(text: string): string
    requires IsObject(text)
  {
    if Brace(text) == 0 && Members(text) == [] then "" else ","
  }

  /** Main result, on values. The edited text parses to the same object with only that member set,
      exactly when the text starts with its brace or the object is not empty; otherwise it no longer
      parses, and the caller's re-parse refuses it. */
  lemma SpliceMeaning(text: string, text2: string, key: seq<Unit>, written: string, v: Value, ins: string)
    requires IsObject(text) && Scans(written, v)
    requires var p := DocumentPlace(text, key);
             p.Place? && Inserts(ins, Separator(text), key, written, p.adds) && Edited(text, text2, p.start, p.end, ins)
    ensures ParseDocument(text2).Got? <==> Brace(text) == 0 || Members(text) != []
    ensures ParseDocument(text2).Got? ==> ParseDocument(text2).value == Obj(SetMember(Members(text), key, v))
  {
    var b := Brace(text);
    var t := SkipWhite(text, b + 1);
    DocumentParts(text);
    BraceKept(text, text2, b);
    if Members(text) == [] {
      EmptyObject(text, text2, b, t, key, written, v, ins);
    } else {
      FilledObject(text, text2, b, t, key, written, v, ins);
    }
  }

  lemma FilledObject(
    text: string, text2: string, b: nat, t: nat, key: seq<Unit>, written: string, v: Value, ins: string)
    requires b < t < |text| && t == SkipWhite(text, b + 1) && Scans(written, v)
    requires ScanMembers(text, t).Got? && SkipWhite(text, ScanMembers(text, t).end) == |text|
    requires var p := MemberPlace(text, t, key);
             p.Place? && Inserts(ins, ",", key, written, p.adds) && Edited(text, text2, p.start, p.end, ins)
    requires SkipWhite(text2, 0) == b && At(text2, b, '{')
    ensures ParseDocument(text2).Got? && ParseDocument(text2).value == Obj(SetMember(ScanMembers(text, t).value, key, v))
  {
    var members := ScanMembers(text, t);
    MembersEdited(text, text2, t, key, written, v, ins);
    FirstKept(text, text2, b, t);
    MembersHead(text2, t);
    Closes(text, text2, b, t, SetMember(members.value, key, v), members.end);
  }

  lemma MembersHead(s: string, i: nat)
    requires ScanMembers(s, i).Got?
    ensures At(s, i, '"')
  {
  }

  lemma BraceKept(s: string, s2: string, b: nat)
    requires At(s, b, '{') && b == SkipWhite(s, 0) && Repeats(s, s2, 0, b + 1, 0)
    ensures SkipWhite(s2, 0) == b && At(s2, b, '{')
  {
    assert s2[b + 0] == s[b];
    WhiteUpTo(s, s2, 0, 0);
  }

  lemma FirstKept(s: string, s2: string, b: nat, t: nat)
    requires b < t < |s| && t < |s2| && Repeats(s, s2, 0, t + 1, 0) && t == SkipWhite(s, b + 1)
    ensures SkipWhite(s2, b + 1) == t && s2[t] == s[t]
  {
    assert s2[t + 0] == s[t];
    WhiteUpTo(s, s2, b + 1, 0);
  }

  /** A whole document from its members, with the text behind the object kept. */
  lemma Closes(s: string, s2: string, b: nat, t: nat, ms: seq<Member>, end: nat)
    requires At(s2, b, '{') && SkipWhite(s2, 0) == b && SkipWhite(s2, b + 1) == t && t < |s2|
    requires var d := |s2| - |s|; end + d >= 0 && end <= |s| && SkipWhite(s, end) == |s| && Repeats(s, s2, end, |s|, d)
    requires (s2[t] == '}' && ms == [] && t + 1 == end + |s2| - |s|)
             || (s2[t] != '}' && ScanMembers(s2, t) == Got(ms, end + |s2| - |s|))
    ensures ParseDocument(s2).Got? && ParseDocument(s2).value == Obj(ms)
  {
    ObjectCases(s2, b);
    assert ScanValue(s2, b) == ScanObject(s2, b);
    TrailingWhite(s, s2, end, |s2| - |s|);
  }

  lemma TrailingWhite(s: string, s2: string, i: nat, d: int)
    requires i <= |s| && SkipWhite(s, i) == |s| && |s2| == |s| + d && Repeats(s, s2, i, |s|, d)
    ensures SkipWhite(s2, i + d) == |s2|
  {
    WhiteUpTo(s, s2, i, d);
  }

  lemma EmptyObject(
    text: string, text2: string, b: nat, t: nat, key: seq<Unit>, written: string, v: Value, ins: string)
    requires b < t < |text| && t == SkipWhite(text, b + 1) && At(text, t, '}') && SkipWhite(text, t + 1) == |text|
    requires Scans(written, v)
    requires Inserts(ins, if b == 0 then "" else ",", key, written, true) && Edited(text, text2, t, t, ins)
    requires SkipWhite(text2, 0) == b && At(text2, b, '{')
    ensures ParseDocument(text2).Got? <==> b == 0
    ensures ParseDocument(text2).Got? ==> ParseDocument(text2).value == Obj([Member(key, v)])
  {
    assert ins[0] == if b == 0 then '"' else ',';
    assert text2[0 + t] == ins[0];
    WhiteUpTo(text, text2, b + 1, 0);
    if b == 0 {
      InsertedMember(text, text2, t, ins, "", key, written, v);
      Closes(text, text2, b, t, [Member(key, v)], t + 1);
    } else {
      StrayComma(text2, b, t);
    }
  }

  /** A comma where the first member should be: the text no longer parses. */
  lemma StrayComma(s: string, b: nat, t: nat)
    requires At(s, b, '{') && SkipWhite(s, 0) == b && SkipWhite(s, b + 1) == t && At(s, t, ',')
    ensures ParseDocument(s).Fail?
  {
    ObjectCases(s, b);
    assert ScanMembers(s, t).Fail?;
    assert ScanValue(s, b) == ScanObject(s, b);
  }

  // ---- the splice itself ----

  /** Something but white space stands between the two positions. */
  predicate HasInk(text: string, i: nat, j: nat)
    requires j <= |text|
  {
    exists k: nat :: i <= k < j && !IsSpace(text[k])
  }

  lemma NotSpace(s: string, i: nat)
    requires i < |s|
    requires s[i] == '"' || s[i] == '}' || s[i] == ',' || s[i] == ':' || s[i] == '{'
    ensures !IsSpace(s[i])
  {
  }

  lemma ValueNotSpace(s: string, i: nat)
    requires i <= |s| && ScanValue(s, i).Got?
    ensures i < |s| && !IsSpace(s[i])
  {
    assert s[i] == '"' || s[i] == '{' || s[i] == '[' || s[i] == 'n' || s[i] == 't' || s[i] == 'f' || IsNumChar(s[i]);
  }

  /** The scan has passed the members in front of `cursor`. */
  ghost predicate Midway(text: string, cursor: nat, key: seq<Unit>, i: nat)
    requires IsObject(text)
  {
    && SkipWhite(text, Brace(text) + 1) < i <= |text| && ScanMemberTail(text, i).Got?
    && Members(text) != []
    && DocumentPlace(text, key) == TailPlace(text, i, key)
    && cursor == (if At(text, SkipWhite(text, i), ',') then SkipWhite(text, i) + 1 else SkipWhite(text, i))
  }

  lemma DocumentTaken(text: string, key: seq<Unit>)
    requires IsObject(text)
    ensures DocumentPlace(text, key).Taken? <==> IsTaken(FirstValue(Members(text), key))
  {
    DocumentParts(text);
    if Members(text) != [] {
      PlaceExists(text, SkipWhite(text, Brace(text) + 1), key);
    }
  }

  lemma WhiteBefore(s: string, i: nat, k: nat)
    requires i <= |s| && i <= k < SkipWhite(s, i)
    ensures IsWhite(s[k])
    decreases |s| - i
  {
    if k > i { WhiteBefore(s, i + 1, k); }
  }

  /** Where the cursor comes to rest: on the closing brace, or on the next member. */
  ghost predicate Rests(text: string, cursor: nat, key: seq<Unit>)
    requires IsObject(text)
  {
    cursor <= |text| && var t := SkipWhite(text, cursor);
    && cursor <= t < |text| && !IsSpace(text[t]) && SkipWhite(text, Brace(text) + 1) <= t
    && (text[t] == '}' ==> DocumentPlace(text, key) == Place(t, t, true))
    && (text[t] != '}' ==> ScanMembers(text, t).Got? && DocumentPlace(text, key) == MemberPlace(text, t, key)
                           && Members(text) != [])
  }

  lemma FirstTarget(text: string, key: seq<Unit>)
    requires IsObject(text)
    ensures Rests(text, Brace(text) + 1, key)
  {
    DocumentParts(text);
    var t := SkipWhite(text, Brace(text) + 1);
    if t < |text| && text[t] != '}' { MembersHead(text, t); }
  }

  lemma NextTarget(text: string, cursor: nat, key: seq<Unit>, i: nat)
    requires IsObject(text) && Midway(text, cursor, key, i)
    ensures Rests(text, cursor, key)
  {
    assert SkipWhite(text, SkipWhite(text, i)) == SkipWhite(text, i);
    var t := SkipWhite(text, cursor);
    if t < |text| && text[t] != '}' { MembersHead(text, t); }
  }

  lemma Target(text: string, cursor: nat, key: seq<Unit>, i: nat, passed: bool)
    requires IsObject(text)
    requires if passed then Midway(text, cursor, key, i) else cursor == Brace(text) + 1
    ensures Rests(text, cursor, key)
  {
    if passed { NextTarget(text, cursor, key, i); } else { FirstTarget(text, key); }
  }

  /** The test made in front of the closing brace: is there anything between it and the first character of the text? */
  lemma SeparatorMatches(text: string, cursor: nat, key: seq<Unit>, i: nat, passed: bool, top: nat)
    requires IsObject(text)
    requires if passed then Midway(text, top, key, i) else top == Brace(text) + 1
    requires cursor == SkipWhite(text, top) && At(text, cursor, '}')
    ensures Separator(text) == if HasInk(text, 1, cursor) then "," else ""
  {
    DocumentParts(text);
    var b := Brace(text);
    if passed {
      var t := SkipWhite(text, b + 1);
      MembersHead(text, t);
      assert 1 <= t < i <= cursor;
    } else if b == 0 {
      forall k | 1 <= k < cursor ensures IsSpace(text[k]) { WhiteBefore(text, 1, k); }
    } else {
      NotSpace(text, b);
    }
  }

  lemma NullText(s: string, i: nat)
    requires i <= |s| && ScanValue(s, i).Got? && ScanValue(s, i).value.Null?
    ensures s[i..ScanValue(s, i).end] == "null"
  {
  }

  /** Moves the cursor past white space, at a place where the text is known to be sound. */
  method SkipSpaces(text: string, start: nat) returns (cursor: nat)
    requires start <= |text| && SkipWhite(text, start) < |text| && !IsSpace(text[SkipWhite(text, start)])
    ensures cursor == SkipWhite(text, start)
  {
    cursor := start;
    while IsSpace(text[cursor])
      invariant cursor < |text| && SkipWhite(text, cursor) == SkipWhite(text, start)
      decreases |text| - cursor
    {
      assert IsWhite(text[cursor]);
      cursor := cursor + 1;
    }
  }

  lemma TailMark(s: string, e: nat)
    requires e <= |s| && ScanMemberTail(s, e).Got?
    ensures SkipWhite(s, e) < |s| && !IsSpace(s[SkipWhite(s, e)])
  {
  }

  /** The key, the value and what follows, for a member of a sound object. */
  lemma MemberParts(s: string, i: nat)
    requires ScanMembers(s, i).Got?
    ensures At(s, i, '"') && ScanString(s, i + 1).Got? && ScanKey(s, i).Got?
    ensures var k := ScanString(s, i + 1); var colon := SkipWhite(s, k.end);
            && ScanKey(s, i).value == k.value && At(s, colon, ':') && ScanKey(s, i).end == SkipWhite(s, colon + 1)
            && ScanKey(s, i).end < |s| && !IsSpace(s[ScanKey(s, i).end])
    ensures var value := ScanValue(s, ScanKey(s, i).end);
            && value.Got? && ScanMemberTail(s, value.end).Got?
            && SkipWhite(s, value.end) < |s| && !IsSpace(s[SkipWhite(s, value.end)])
  {
    MembersParts(s, i);
    var k := ScanKey(s, i);
    ValueNotSpace(s, k.end);
    var e := ScanValue(s, k.end).end;
    TailMark(s, e);
  }

  /** What a successful splice delivers. */
  ghost predicate Spliced(text: string, text2: string, key: seq<Unit>, v: Value, start: nat, end: nat, ins: string)
    requires IsObject(text)
  {
    && (ParseDocument(text2).Got? <==> Brace(text) == 0 || Members(text) != [])
    && (ParseDocument(text2).Got? ==> ParseDocument(text2).value == Obj(SetMember(Members(text), key, v)))
    && start <= end <= |text| && text2 == text[..start] + ins + text[end..]
    && (text[start..end] == "null" || start == end)
  }

  lemma SplicedAt(text: string, key: seq<Unit>, written: string, v: Value, ins: string)
    requires IsObject(text) && Scans(written, v) && DocumentPlace(text, key).Place?
    requires Inserts(ins, Separator(text), key, written, DocumentPlace(text, key).adds)
    requires var p := DocumentPlace(text, key); text[p.start..p.end] == "null" || p.start == p.end
    ensures var p := DocumentPlace(text, key);
            Spliced(text, text[..p.start] + ins + text[p.end..], key, v, p.start, p.end, ins)
  {
    var p := DocumentPlace(text, key);
    EditedBy(text, p.start, p.end, ins);
    SpliceMeaning(text, text[..p.start] + ins + text[p.end..], key, written, v, ins);
  }

  /** The scan of one member by the loop: where its value starts, and where the scan goes on. */
  method PassMember(text: string, cursor: nat) returns (key: seq<Unit>, at: nat, value: Value, end: nat, next: nat)
    requires ScanMembers(text, cursor).Got?
    ensures ScanKey(text, cursor) == Got(key, at)
    ensures ScanValue(text, at) == Got(value, end) && cursor < at < end < |text|
    ensures ScanMemberTail(text, end).Got?
    ensures next == if At(text, SkipWhite(text, end), ',') then SkipWhite(text, end) + 1 else SkipWhite(text, end)
    ensures next <= |text|
  {
    MemberParts(text, cursor);
    var k := ScanString(text, cursor + 1);
    key := k.value;
    at := SkipSpaces(text, k.end);
    at := SkipSpaces(text, at + 1);
    var scan := ScanValue(text, at);
    value, end := scan.value, scan.end;
    next := SkipSpaces(text, end);
    if text[next] == ',' {
      next := next + 1;
    }
  }

  lemma Passed(text: string, cursor: nat, key: seq<Unit>, end: nat, next: nat)
    requires IsObject(text) && ScanMembers(text, cursor).Got? && SkipWhite(text, Brace(text) + 1) <= cursor
    requires DocumentPlace(text, key) == MemberPlace(text, cursor, key) && Members(text) != []
    requires ScanKey(text, cursor).Got? && ScanKey(text, cursor).value != key
    requires ScanValue(text, ScanKey(text, cursor).end).Got? && ScanValue(text, ScanKey(text, cursor).end).end == end
    requires ScanMemberTail(text, end).Got? && end <= |text|
    requires next == if At(text, SkipWhite(text, end), ',') then SkipWhite(text, end) + 1 else SkipWhite(text, end)
    ensures Midway(text, next, key, end)
  {
    MembersParts(text, cursor);
  }

  /** `_replace_blank_member`. The text has passed strict parsing. On success exactly `[start, end)`,
      which held `null` or nothing, is replaced. */
  method ReplaceBlankMember(text: string, field: string, written: string, ghost v: Value)
    returns (r: Result<string>, ghost start: nat, ghost end: nat, ghost ins: string)
    requires IsObject(text) && Scans(written, v)
    ensures r.Err? <==> field !in AllowedFields || IsTaken(FirstValue(Members(text), Units(field)))
    ensures r.Ok? ==> Spliced(text, r.value, Units(field), v, start, end, ins)
  {
    start, end, ins := 0, 0, "";
    if field !in AllowedFields {
      return Err(InvalidInput), start, end, ins;
    }
    var key := Units(field);
    DocumentTaken(text, key);
    var cursor := IndexOfBrace(text);
    cursor := cursor + 1;
    ghost var passed, i := false, 0;
    while true
      invariant cursor <= |text|
      invariant if passed then Midway(text, cursor, key, i) else cursor == Brace(text) + 1
      decreases |text| - cursor, !passed
    {
      ghost var top := cursor;
      Target(text, cursor, key, i, passed);
      cursor := SkipSpaces(text, cursor);
      if text[cursor] == '}' {
        SeparatorMatches(text, cursor, key, i, passed, top);
        var separator := if HasInk(text, 1, cursor) then "," else "";
        var member := separator + (DumpString(key) + (":" + written));
        start, end, ins := cursor, cursor, member;
        SplicedAt(text, key, written, v, member);
        return Ok(text[..cursor] + member + text[cursor..]), start, end, ins;
      }
      var name, at, value, stop, next := PassMember(text, cursor);
      if name == key {
        MembersParts(text, cursor);
        if !value.Null? {
          return Err(InvalidInput), start, end, ins;
        }
        NullText(text, at);
        start, end, ins := at, stop, written;
        SplicedAt(text, key, written, v, written);
        return Ok(text[..at] + written + text[stop..]), start, end, ins;
      }
      Passed(text, cursor, key, stop, next);
      i, passed := stop, true;
      cursor := next;
    }
  }

  /** Where the first opening brace stands. */
  method IndexOfBrace(text: string) returns (b: nat)
    requires IsObject(text)
    ensures b == Brace(text)
  {
    b := 0;
    while text[b] != '{'
      invariant b <= Brace(text) && SkipWhite(text, b) == Brace(text)
      decreases Brace(text) - b
    {
      assert text[Brace(text)] == '{' by { DocumentParts(text); }
      b := b + 1;
    }
  }

  /** All members but one, on the raw members. */
  function Others(members: seq<Member>, key: seq<Unit>): seq<Member> {
    if members == [] then []
    else if members[0].key == key then Others(members[1..], key)
    else [members[0]] + Others(members[1..], key)
  }

  lemma {:induction false} OthersKept(members: seq<Member>, key: seq<Unit>, v: Value)
    ensures Others(SetMember(members, key, v), key) == Others(members, key)
    ensures FirstValue(SetMember(members, key, v), key) == Some(v)
  {
    if members != [] && members[0].key != key {
      OthersKept(members[1..], key, v);
    }
  }

  /** The update in `_bind_private_field`: splice, parse again, compare all other members, then write.
      It succeeds exactly when the field is free and the text is not a blank-led empty object. */
  method BindPrivateField(text: string, field: string, written: string, ghost v: Value) returns (r: Result<string>)
    requires IsObject(text) && Scans(written, v)
    ensures r.Ok? <==> field in AllowedFields && !IsTaken(FirstValue(Members(text), Units(field)))
                       && (Brace(text) == 0 || Members(text) != [])
    ensures r.Ok? ==> IsObject(r.value) && Members(r.value) == SetMember(Members(text), Units(field), v)
  {
    var updated, start, end, ins := ReplaceBlankMember(text, field, written, v);
    if updated.Err? {
      return Err(InvalidInput);
    }
    var parsed := ParseDocument(updated.value);
    OthersKept(Members(text), Units(field), v);
    if parsed.Fail? || !parsed.value.Obj? {
      return Err(InvalidInput);
    }
    if Others(parsed.value.members, Units(field)) != Others(Members(text), Units(field)) {
      return Err(InvalidInput);
    }
    r := Ok(updated.value);
  }

  /** The smallest text on which the splice itself goes wrong: a blank-led empty object. */
  lemma BlankLedEmptyObject()
    ensures IsObject(" {}") && Members(" {}") == [] && Brace(" {}") != 0
    ensures Separator(" {}") == ","
  {
    var s := " {}";
    assert SkipWhite(s, 1) == 1 && SkipWhite(s, 0) == 1;
    assert SkipWhite(s, 2) == 2 && SkipWhite(s, 3) == 3;
    ObjectCases(s, 1);
    assert ScanValue(s, 1) == ScanObject(s, 1);
  }
}
