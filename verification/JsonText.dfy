/** A concrete JSON grammar (sections 2 to 7 of RFC 8259): scanning values at a position as
`JSONDecoder.raw_decode` does, and writing them as `json.dumps` does. Strings are sequences of UTF-16
code units, so that an escaped and a raw spelling of one string agree. */
module JsonText {

  type Unit = u: int | 0 <= u < 0x1_0000

  datatype Value =
    | Null
    | Bool(b: bool)
    | Num(lexeme: string)
    | Str(units: seq<Unit>)
    | Arr(items: seq<Value>)
    | Obj(members: seq<Member>)

  datatype Member = Member(key: seq<Unit>, value: Value)

  /** A scan that succeeded also says where it ended. */
  datatype Scan<+T> = Fail | Got(value: T, end: nat)

  predicate IsWhite(c: char) { c == ' ' || c == '\t' || c == '\n' || c == '\r' }

  predicate At(s: string, i: nat, c: char) { i < |s| && s[i] == c }

  function SkipWhite(s: string, i: nat): (r: nat)
    requires i <= |s|
    ensures i <= r <= |s|
    ensures i < r ==> IsWhite(s[i])
    ensures r < |s| ==> !IsWhite(s[r])
    decreases |s| - i
  {
    if i < |s| && IsWhite(s[i]) then SkipWhite(s, i + 1) else i
  }

  // ---- strings ----

  function HexValue(c: char): int {
    if '0' <= c <= '9' then c as int - '0' as int
    else if 'a' <= c <= 'f' then c as int - 'a' as int + 10
    else if 'A' <= c <= 'F' then c as int - 'A' as int + 10
    else -1
  }

  predicate IsHex(c: char) { HexValue(c) >= 0 }

  /** The code units of one raw character. */
  function RawUnits(c: char): seq<Unit> {
    var code := c as int;
    if code < 0x1_0000 then [code] else [0xD800 + (code - 0x1_0000) / 0x400, 0xDC00 + (code - 0x1_0000) % 0x400]
  }

  /** The units of one character or escape. */
  function ScanUnit(s: string, i: nat): (r: Scan<seq<Unit>>)
    ensures r.Got? ==> i < r.end <= |s| && s[i] != '"'
  {
    if i >= |s| || s[i] as int < 0x20 || s[i] == '"' then Fail
    else if s[i] != '\\' then Got(RawUnits(s[i]), i + 1)
    else if i + 1 >= |s| then Fail
    else if s[i + 1] == '"' || s[i + 1] == '\\' || s[i + 1] == '/' then Got([s[i + 1] as int], i + 2)
    else if s[i + 1] == 'b' then Got([8], i + 2)
    else if s[i + 1] == 'f' then Got([12], i + 2)
    else if s[i + 1] == 'n' then Got([10], i + 2)
    else if s[i + 1] == 'r' then Got([13], i + 2)
    else if s[i + 1] == 't' then Got([9], i + 2)
    else if s[i + 1] == 'u' && i + 6 <= |s| && IsHex(s[i + 2]) && IsHex(s[i + 3]) && IsHex(s[i + 4]) && IsHex(s[i + 5]) then
      Got([HexValue(s[i + 2]) * 4096 + HexValue(s[i + 3]) * 256 + HexValue(s[i + 4]) * 16 + HexValue(s[i + 5])], i + 6)
    else Fail
  }

  /** The characters of a string from `i` up to and including its closing quote. */
  function ScanString(s: string, i: nat): (r: Scan<seq<Unit>>)
    ensures r.Got? ==> i < r.end <= |s|
    decreases |s| - i
  {
    if At(s, i, '"') then Got([], i + 1)
    else
      var first := ScanUnit(s, i);
      if first.Fail? then Fail
      else
        var more := ScanString(s, first.end);
        if more.Fail? then Fail else Got(first.value + more.value, more.end)
  }

  // ---- numbers and literals ----

  predicate IsNumChar(c: char) { '0' <= c <= '9' || c == '+' || c == '-' || c == '.' || c == 'e' || c == 'E' }

  function NumEnd(s: string, i: nat): (n: nat)
    requires i <= |s|
    ensures i <= n <= |s|
    ensures n < |s| ==> !IsNumChar(s[n])
    decreases |s| - i
  {
    if i < |s| && IsNumChar(s[i]) then NumEnd(s, i + 1) else i
  }

  function DigitsEnd(s: string, i: nat): (r: nat)
    requires i <= |s|
    ensures i <= r <= |s|
    decreases |s| - i
  {
    if i < |s| && '0' <= s[i] <= '9' then DigitsEnd(s, i + 1) else i
  }

  function FractionEnd(s: string, i: nat): (r: nat)
    requires i <= |s|
    ensures i <= r <= |s|
  {
    if At(s, i, '.') && DigitsEnd(s, i + 1) > i + 1 then DigitsEnd(s, i + 1) else i
  }

  function ExponentEnd(s: string, i: nat): (r: nat)
    requires i <= |s|
    ensures i <= r <= |s|
  {
    if At(s, i, 'e') || At(s, i, 'E') then
      var d := if At(s, i + 1, '+') || At(s, i + 1, '-') then i + 2 else i + 1;
      if DigitsEnd(s, d) > d then DigitsEnd(s, d) else i
    else i
  }

  /** -? (0 | [1-9] digits) (. digits)? ([eE] [+-]? digits)? */
  predicate IsNumber(s: string) {
    var i := if At(s, 0, '-') then 1 else 0;
    var j := if At(s, i, '0') then i + 1 else DigitsEnd(s, i);
    j > i && ExponentEnd(s, FractionEnd(s, j)) == |s|
  }

  function ScanWord(s: string, i: nat): (r: Scan<Value>)
    ensures r.Got? ==> i < r.end <= |s|
  {
    if At(s, i, 'n') && At(s, i + 1, 'u') && At(s, i + 2, 'l') && At(s, i + 3, 'l') then Got(Null, i + 4)
    else if At(s, i, 't') && At(s, i + 1, 'r') && At(s, i + 2, 'u') && At(s, i + 3, 'e') then Got(Bool(true), i + 4)
    else if At(s, i, 'f') && At(s, i + 1, 'a') && At(s, i + 2, 'l') && At(s, i + 3, 's') && At(s, i + 4, 'e') then
      Got(Bool(false), i + 5)
    else Fail
  }

  function ScanNumber(s: string, i: nat): (r: Scan<Value>)
    requires i <= |s|
    ensures r.Got? ==> i < r.end <= |s|
  {
    var n := NumEnd(s, i);
    if n > i && IsNumber(s[i..n]) then Got(Num(s[i..n]), n) else Fail
  }

  // ---- values ----

  /** An object from its opening brace at `i`. */
  function ScanObject(s: string, i: nat): (r: Scan<Value>)
    requires i < |s|
    ensures r.Got? ==> i < r.end <= |s|
    decreases |s| - i, 0
  {
    var t := SkipWhite(s, i + 1);
    if At(s, t, '}') then Got(Obj([]), t + 1)
    else
      var members := ScanMembers(s, t);
      if members.Fail? then Fail else Got(Obj(members.value), members.end)
  }

  function ScanArray(s: string, i: nat): (r: Scan<Value>)
    requires i < |s|
    ensures r.Got? ==> i < r.end <= |s|
    decreases |s| - i, 0
  {
    var t := SkipWhite(s, i + 1);
    if At(s, t, ']') then Got(Arr([]), t + 1)
    else
      var items := ScanItems(s, t);
      if items.Fail? then Fail else Got(Arr(items.value), items.end)
  }

  /** One value at `i`, without leading white space. */
  function ScanValue(s: string, i: nat): (r: Scan<Value>)
    requires i <= |s|
    ensures r.Got? ==> i < r.end <= |s|
    decreases |s| - i, 1
  {
    if i == |s| then Fail
    else if s[i] == '"' then
      var str := ScanString(s, i + 1);
      if str.Fail? then Fail else Got(Str(str.value), str.end)
    else if s[i] == '{' then ScanObject(s, i)
    else if s[i] == '[' then ScanArray(s, i)
    else if s[i] == 'n' || s[i] == 't' || s[i] == 'f' then ScanWord(s, i)
    else ScanNumber(s, i)
  }

  /** A colon with the white space around it. */
  function ScanColon(s: string, i: nat): (r: Scan<()>)
    requires i <= |s|
    ensures r.Got? ==> i < r.end <= |s|
  {
    var colon := SkipWhite(s, i);
    if At(s, colon, ':') then Got((), SkipWhite(s, colon + 1)) else Fail
  }

  /** The key of a member at `i` and the position of its value. */
  function ScanKey(s: string, i: nat): (r: Scan<seq<Unit>>)
    ensures r.Got? ==> i < r.end <= |s|
  {
    if !At(s, i, '"') then Fail
    else
      var key := ScanString(s, i + 1);
      if key.Fail? then Fail
      else
        var colon := ScanColon(s, key.end);
        if colon.Got? then Got(key.value, colon.end) else Fail
  }

  function AddMember(m: Member, tail: Scan<seq<Member>>): Scan<seq<Member>> {
    if tail.Fail? then Fail else Got([m] + tail.value, tail.end)
  }

  /** A member and, behind it, the rest of the object. */
  function ScanMembers(s: string, i: nat): (r: Scan<seq<Member>>)
    ensures r.Got? ==> i < r.end <= |s|
    decreases |s| - i, 1
  {
    var key := ScanKey(s, i);
    if key.Fail? then Fail else ScanMemberFrom(s, key.value, key.end)
  }

  function ScanMemberFrom(s: string, key: seq<Unit>, i: nat): (r: Scan<seq<Member>>)
    requires i <= |s|
    ensures r.Got? ==> i < r.end <= |s|
    decreases |s| - i, 2
  {
    var value := ScanValue(s, i);
    if value.Fail? then Fail else AddMember(Member(key, value.value), ScanMemberTail(s, value.end))
  }

  /** After a member: the end of the object, or a comma and more members. */
  function ScanMemberTail(s: string, i: nat): (r: Scan<seq<Member>>)
    requires i <= |s|
    ensures r.Got? ==> i < r.end <= |s|
    decreases |s| - i, 1
  {
    var t := SkipWhite(s, i);
    if At(s, t, '}') then Got([], t + 1)
    else if At(s, t, ',') then ScanMembers(s, SkipWhite(s, t + 1))
    else Fail
  }

  function AddItem(v: Value, tail: Scan<seq<Value>>): Scan<seq<Value>> {
    if tail.Fail? then Fail else Got([v] + tail.value, tail.end)
  }

  function ScanItems(s: string, i: nat): (r: Scan<seq<Value>>)
    requires i <= |s|
    ensures r.Got? ==> i < r.end <= |s|
    decreases |s| - i, 2
  {
    var value := ScanValue(s, i);
    if value.Fail? then Fail else AddItem(value.value, ScanItemTail(s, value.end))
  }

  function ScanItemTail(s: string, i: nat): (r: Scan<seq<Value>>)
    requires i <= |s|
    ensures r.Got? ==> i < r.end <= |s|
    decreases |s| - i, 2
  {
    var t := SkipWhite(s, i);
    if At(s, t, ']') then Got([], t + 1)
    else if At(s, t, ',') then ScanItems(s, SkipWhite(s, t + 1))
    else Fail
  }

  /** The parts of a sound member list: key, value and tail. */
  lemma MembersParts(s: string, i: nat)
    requires ScanMembers(s, i).Got?
    ensures At(s, i, '"') && ScanString(s, i + 1).Got? && ScanKey(s, i).Got?
    ensures ScanKey(s, i).value == ScanString(s, i + 1).value
    ensures ScanColon(s, ScanString(s, i + 1).end) == Got((), ScanKey(s, i).end)
    ensures var k := ScanKey(s, i);
            var value := ScanValue(s, k.end);
            && value.Got? && ScanMemberTail(s, value.end).Got?
            && ScanMembers(s, i).value == [Member(k.value, value.value)] + ScanMemberTail(s, value.end).value
            && ScanMembers(s, i).end == ScanMemberTail(s, value.end).end
  {
    var k := ScanKey(s, i);
    assert ScanMemberFrom(s, k.value, k.end) == ScanMembers(s, i);
    FromParts(s, k.value, k.end);
  }

  lemma FromParts(s: string, key: seq<Unit>, i: nat)
    requires i <= |s| && ScanMemberFrom(s, key, i).Got?
    ensures var value := ScanValue(s, i);
            && value.Got? && ScanMemberTail(s, value.end).Got?
            && ScanMemberFrom(s, key, i)
                 == Got([Member(key, value.value)] + ScanMemberTail(s, value.end).value, ScanMemberTail(s, value.end).end)
  {
  }

  /** A whole text: one value, white space around it. */
  function ParseDocument(text: string): Scan<Value> {
    var value := ScanValue(text, SkipWhite(text, 0));
    if value.Got? && SkipWhite(text, value.end) == |text| then value else Fail
  }

  // ---- a scan depends only on what it reads ----

  /** `s2` repeats `s[i..j]`, shifted by `d`. */
  predicate Repeats(s: string, s2: string, i: nat, j: nat, d: int) {
    && i <= j <= |s| && 0 <= i + d && j + d <= |s2|
    && forall k :: i <= k < j ==> s2[k + d] == s[k]
  }

  /** A number would swallow a following number character; nothing else looks past its end. */
  predicate Stops(s: string, i: nat) { i < |s| ==> !IsNumChar(s[i]) }

  /** White space repeated up to something that is not white space. */
  lemma {:induction false} WhiteUpTo(s: string, s2: string, i: nat, d: int)
    requires i <= |s| && Repeats(s, s2, i, SkipWhite(s, i), d)
    requires SkipWhite(s, i) + d < |s2| ==> !IsWhite(s2[SkipWhite(s, i) + d])
    ensures SkipWhite(s2, i + d) == SkipWhite(s, i) + d
    decreases |s| - i
  {
    if i < |s| && IsWhite(s[i]) {
      assert s2[i + d] == s[i];
      WhiteUpTo(s, s2, i + 1, d);
    }
  }

  lemma WhiteLocal(s: string, s2: string, i: nat, j: nat, d: int)
    requires Repeats(s, s2, i, j, d) && SkipWhite(s, i) < j
    ensures SkipWhite(s2, i + d) == SkipWhite(s, i) + d
  {
    assert s2[SkipWhite(s, i) + d] == s[SkipWhite(s, i)];
    WhiteUpTo(s, s2, i, d);
  }

  lemma UnitLocal(s: string, s2: string, i: nat, j: nat, d: int)
    requires ScanUnit(s, i).Got? && ScanUnit(s, i).end <= j && Repeats(s, s2, i, j, d)
    ensures ScanUnit(s2, i + d) == Got(ScanUnit(s, i).value, ScanUnit(s, i).end + d)
  {
    assert s2[i + d] == s[i];
    if s[i] == '\\' {
      assert s2[i + 1 + d] == s[i + 1];
      if ScanUnit(s, i).end == i + 6 {
        assert s2[i + 2 + d] == s[i + 2] && s2[i + 3 + d] == s[i + 3] && s2[i + 4 + d] == s[i + 4] && s2[i + 5 + d] == s[i + 5];
      }
    }
  }

  lemma {:induction false} StringLocal(s: string, s2: string, i: nat, j: nat, d: int)
    requires ScanString(s, i).Got? && ScanString(s, i).end <= j && Repeats(s, s2, i, j, d)
    ensures ScanString(s2, i + d) == Got(ScanString(s, i).value, ScanString(s, i).end + d)
    decreases j - i
  {
    assert s2[i + d] == s[i];
    if !At(s, i, '"') {
      UnitLocal(s, s2, i, j, d);
      StringLocal(s, s2, ScanUnit(s, i).end, j, d);
    }
  }

  lemma {:induction false} NumEndLocal(s: string, s2: string, i: nat, j: nat, d: int)
    requires i <= |s| && NumEnd(s, i) == j && Repeats(s, s2, i, j, d) && Stops(s2, j + d)
    ensures NumEnd(s2, i + d) == j + d
    decreases j - i
  {
    if i < j {
      assert s2[i + d] == s[i];
      NumEndLocal(s, s2, i + 1, j, d);
    }
  }

  lemma NumberLocal(s: string, s2: string, i: nat, j: nat, d: int)
    requires i <= |s| && ScanNumber(s, i).Got? && ScanNumber(s, i).end == j
    requires Repeats(s, s2, i, j, d) && Stops(s2, j + d)
    ensures ScanNumber(s2, i + d) == Got(ScanNumber(s, i).value, j + d)
  {
    NumEndLocal(s, s2, i, j, d);
    assert s2[i + d..j + d] == s[i..j];
  }

  lemma WordLocal(s: string, s2: string, i: nat, j: nat, d: int)
    requires ScanWord(s, i).Got? && ScanWord(s, i).end == j && Repeats(s, s2, i, j, d)
    ensures ScanWord(s2, i + d) == Got(ScanWord(s, i).value, j + d)
  {
    assert s2[i + d] == s[i] && s2[i + 1 + d] == s[i + 1] && s2[i + 2 + d] == s[i + 2] && s2[i + 3 + d] == s[i + 3];
    if j == i + 5 { assert s2[i + 4 + d] == s[i + 4]; }
  }

  lemma {:induction false} ValueLocal(s: string, s2: string, i: nat, d: int)
    requires i <= |s| && ScanValue(s, i).Got?
    requires Repeats(s, s2, i, ScanValue(s, i).end, d) && Stops(s2, ScanValue(s, i).end + d)
    ensures ScanValue(s2, i + d) == Got(ScanValue(s, i).value, ScanValue(s, i).end + d)
    decreases |s| - i, 1
  {
    var j := ScanValue(s, i).end;
    assert s2[i + d] == s[i];
    if s[i] == '"' {
      StringLocal(s, s2, i + 1, j, d);
    } else if s[i] == '{' {
      ObjectLocal(s, s2, i, d);
    } else if s[i] == '[' {
      ArrayLocal(s, s2, i, d);
    } else if s[i] == 'n' || s[i] == 't' || s[i] == 'f' {
      WordLocal(s, s2, i, j, d);
    } else {
      NumberLocal(s, s2, i, j, d);
    }
  }

  /** The scan of an object, case by case. */
  lemma ObjectCases(s: string, i: nat)
    requires i < |s|
    ensures var t := SkipWhite(s, i + 1);
            ScanObject(s, i)
              == if At(s, t, '}') then Got(Obj([]), t + 1)
                 else if ScanMembers(s, t).Got? then Got(Obj(ScanMembers(s, t).value), ScanMembers(s, t).end)
                 else Fail
  {
  }

  lemma {:induction false} ObjectLocal(s: string, s2: string, i: nat, d: int)
    requires i < |s| && ScanObject(s, i).Got? && Repeats(s, s2, i, ScanObject(s, i).end, d)
    ensures ScanObject(s2, i + d) == Got(ScanObject(s, i).value, ScanObject(s, i).end + d)
    decreases |s| - i, 0
  {
    var t := SkipWhite(s, i + 1);
    ObjectCases(s, i);
    WhiteLocal(s, s2, i + 1, ScanObject(s, i).end, d);
    assert s2[t + d] == s[t];
    if !At(s, t, '}') { MembersLocal(s, s2, t, d); }
    ObjectCases(s2, i + d);
  }

  lemma ArrayCases(s: string, i: nat)
    requires i < |s|
    ensures var t := SkipWhite(s, i + 1);
            ScanArray(s, i)
              == if At(s, t, ']') then Got(Arr([]), t + 1)
                 else if ScanItems(s, t).Got? then Got(Arr(ScanItems(s, t).value), ScanItems(s, t).end)
                 else Fail
  {
  }

  lemma {:induction false} ArrayLocal(s: string, s2: string, i: nat, d: int)
    requires i < |s| && ScanArray(s, i).Got? && Repeats(s, s2, i, ScanArray(s, i).end, d)
    ensures ScanArray(s2, i + d) == Got(ScanArray(s, i).value, ScanArray(s, i).end + d)
    decreases |s| - i, 0
  {
    var t := SkipWhite(s, i + 1);
    ArrayCases(s, i);
    WhiteLocal(s, s2, i + 1, ScanArray(s, i).end, d);
    assert s2[t + d] == s[t];
    if !At(s, t, ']') { ItemsLocal(s, s2, t, d); }
    ArrayCases(s2, i + d);
  }

  lemma ColonLocal(s: string, s2: string, i: nat, d: int)
    requires i <= |s| && ScanColon(s, i).Got? && Repeats(s, s2, i, ScanColon(s, i).end, d)
    requires ScanColon(s, i).end + d < |s2| ==> !IsWhite(s2[ScanColon(s, i).end + d])
    ensures ScanColon(s2, i + d) == Got((), ScanColon(s, i).end + d)
  {
    var colon := SkipWhite(s, i);
    WhiteLocal(s, s2, i, ScanColon(s, i).end, d);
    assert s2[colon + d] == s[colon];
    WhiteUpTo(s, s2, colon + 1, d);
  }

  lemma KeyLocal(s: string, s2: string, i: nat, d: int)
    requires ScanKey(s, i).Got? && Repeats(s, s2, i, ScanKey(s, i).end, d)
    requires ScanKey(s, i).end + d < |s2| ==> !IsWhite(s2[ScanKey(s, i).end + d])
    ensures ScanKey(s2, i + d) == Got(ScanKey(s, i).value, ScanKey(s, i).end + d)
  {
    assert s2[i + d] == s[i];
    var key := ScanString(s, i + 1);
    StringLocal(s, s2, i + 1, key.end, d);
    ColonLocal(s, s2, key.end, d);
    assert ScanString(s2, i + d + 1) == Got(key.value, key.end + d);
  }

  lemma {:induction false} MembersLocal(s: string, s2: string, i: nat, d: int)
    requires ScanMembers(s, i).Got? && Repeats(s, s2, i, ScanMembers(s, i).end, d)
    ensures ScanMembers(s2, i + d) == Got(ScanMembers(s, i).value, ScanMembers(s, i).end + d)
    decreases |s| - i, 1
  {
    var key := ScanKey(s, i);
    ValueHead(s, key.end);
    assert s2[key.end + d] == s[key.end];
    KeyLocal(s, s2, i, d);
    MemberFromLocal(s, s2, key.value, key.end, d);
  }

  lemma {:induction false} MemberFromLocal(s: string, s2: string, key: seq<Unit>, i: nat, d: int)
    requires i <= |s| && ScanMemberFrom(s, key, i).Got? && Repeats(s, s2, i, ScanMemberFrom(s, key, i).end, d)
    ensures ScanMemberFrom(s2, key, i + d) == Got(ScanMemberFrom(s, key, i).value, ScanMemberFrom(s, key, i).end + d)
    decreases |s| - i, 2
  {
    var value := ScanValue(s, i);
    TailStops(s, value.end);
    assert s2[value.end + d] == s[value.end];
    ValueLocal(s, s2, i, d);
    MemberTailLocal(s, s2, value.end, d);
  }

  /** What may follow a value inside an object or array never extends a number. */
  lemma TailStops(s: string, i: nat)
    requires i <= |s| && (ScanMemberTail(s, i).Got? || ScanItemTail(s, i).Got?)
    ensures i < |s| && Stops(s, i)
  {
    assert SkipWhite(s, i) == i || IsWhite(s[i]);
  }

  lemma {:induction false} MemberTailLocal(s: string, s2: string, i: nat, d: int)
    requires i <= |s| && ScanMemberTail(s, i).Got? && Repeats(s, s2, i, ScanMemberTail(s, i).end, d)
    ensures ScanMemberTail(s2, i + d) == Got(ScanMemberTail(s, i).value, ScanMemberTail(s, i).end + d)
    decreases |s| - i, 1
  {
    var j := ScanMemberTail(s, i).end;
    WhiteLocal(s, s2, i, j, d);
    var t := SkipWhite(s, i);
    assert s2[t + d] == s[t];
    if At(s, t, ',') {
      WhiteLocal(s, s2, t + 1, j, d);
      MembersLocal(s, s2, SkipWhite(s, t + 1), d);
    }
  }

  lemma {:induction false} ItemsLocal(s: string, s2: string, i: nat, d: int)
    requires i <= |s| && ScanItems(s, i).Got? && Repeats(s, s2, i, ScanItems(s, i).end, d)
    ensures ScanItems(s2, i + d) == Got(ScanItems(s, i).value, ScanItems(s, i).end + d)
    decreases |s| - i, 2
  {
    var value := ScanValue(s, i);
    assert s2[value.end + d] == s[value.end];
    TailStops(s, value.end);
    ValueLocal(s, s2, i, d);
    ItemTailLocal(s, s2, value.end, d);
  }

  lemma {:induction false} ItemTailLocal(s: string, s2: string, i: nat, d: int)
    requires i <= |s| && ScanItemTail(s, i).Got? && Repeats(s, s2, i, ScanItemTail(s, i).end, d)
    ensures ScanItemTail(s2, i + d) == Got(ScanItemTail(s, i).value, ScanItemTail(s, i).end + d)
    decreases |s| - i, 2
  {
    var j := ScanItemTail(s, i).end;
    WhiteLocal(s, s2, i, j, d);
    var t := SkipWhite(s, i);
    assert s2[t + d] == s[t];
    if At(s, t, ',') {
      WhiteLocal(s, s2, t + 1, j, d);
      ItemsLocal(s, s2, SkipWhite(s, t + 1), d);
    }
  }

  // ---- writing ----

  function HexDigit(n: int): (c: char)
    requires 0 <= n < 16
    ensures HexValue(c) == n
  {
    if n < 10 then ('0' as int + n) as char else ('a' as int + n - 10) as char
  }

  function HexEscape(a: int, b: int, c: int, d: int): string
    requires 0 <= a < 16 && 0 <= b < 16 && 0 <= c < 16 && 0 <= d < 16
  {
    ['\\', 'u', HexDigit(a), HexDigit(b), HexDigit(c), HexDigit(d)]
  }

  /** `json.dumps` keeps printable ASCII and escapes everything else. */
  function DumpUnit(u: Unit): string {
    if u == 0x22 then "\\\""
    else if u == 0x5C then "\\\\"
    else if u == 10 then "\\n"
    else if u == 13 then "\\r"
    else if u == 9 then "\\t"
    else if u == 8 then "\\b"
    else if u == 12 then "\\f"
    else if 0x20 <= u < 0x7F then [u as char]
    else HexEscape(u / 4096, u / 256 % 16, u / 16 % 16, u % 16)
  }

  function DumpUnits(units: seq<Unit>): string {
    if units == [] then "\"" else DumpUnit(units[0]) + DumpUnits(units[1..])
  }

  function DumpString(units: seq<Unit>): string { "\"" + DumpUnits(units) }

  function Dump(v: Value): string
    decreases v, 0
  {
    match v
    case Null => "null"
    case Bool(b) => if b then "true" else "false"
    case Num(lexeme) => lexeme
    case Str(units) => DumpString(units)
    case Arr(items) => if items == [] then "[]" else "[" + (Dump(items[0]) + DumpItemTail(items[1..]))
    case Obj(members) => if members == [] then "{}" else "{" + (DumpMember(members[0]) + DumpMemberTail(members[1..]))
  }

  function DumpItemTail(items: seq<Value>): string
    decreases items, 1
  {
    if items == [] then "]" else ", " + (Dump(items[0]) + DumpItemTail(items[1..]))
  }

  function DumpMember(m: Member): string
    decreases m, 1
  {
    DumpString(m.key) + ": " + Dump(m.value)
  }

  function DumpMemberTail(members: seq<Member>): string
    decreases members, 1
  {
    if members == [] then "}" else ", " + (DumpMember(members[0]) + DumpMemberTail(members[1..]))
  }

  /** Every number is written as a JSON number. */
  predicate Writable(v: Value)
    decreases v
  {
    match v
    case Num(lexeme) => IsNumber(lexeme) && forall c :: c in lexeme ==> IsNumChar(c)
    case Arr(items) => forall i | 0 <= i < |items| :: Writable(items[i])
    case Obj(members) => forall i | 0 <= i < |members| :: Writable(members[i].value)
    case _ => true
  }

  lemma Embeds(a: string, b: string)
    ensures Repeats(a, a + b, 0, |a|, 0)
    ensures Repeats(b, a + b, 0, |b|, |a|)
  {
  }

  lemma UnitScans(u: Unit)
    ensures ScanUnit(DumpUnit(u), 0) == Got([u], |DumpUnit(u)|)
  {
    if u in {0x22, 0x5C, 8, 9, 10, 12, 13} {
    } else if 0x20 <= u < 0x7F {
      assert DumpUnit(u)[0] == u as char;
    } else {
      HexScans(u / 4096, u / 256 % 16, u / 16 % 16, u % 16);
      HexDigits(u);
    }
  }

  lemma HexDigits(u: Unit)
    ensures u == u / 4096 * 4096 + u / 256 % 16 * 256 + u / 16 % 16 * 16 + u % 16
  {
    assert u / 256 == u / 16 / 16 && u / 4096 == u / 256 / 16;
  }

  lemma HexScans(a: int, b: int, c: int, d: int)
    requires 0 <= a < 16 && 0 <= b < 16 && 0 <= c < 16 && 0 <= d < 16
    ensures ScanUnit(HexEscape(a, b, c, d), 0) == Got([a * 4096 + b * 256 + c * 16 + d], 6)
  {
    var s := HexEscape(a, b, c, d);
    assert s[2] == HexDigit(a) && s[3] == HexDigit(b) && s[4] == HexDigit(c) && s[5] == HexDigit(d);
  }

  lemma {:induction false} UnitsScan(units: seq<Unit>)
    ensures ScanString(DumpUnits(units), 0) == Got(units, |DumpUnits(units)|)
  {
    if units != [] {
      var a, b := DumpUnit(units[0]), DumpUnits(units[1..]);
      UnitScans(units[0]);
      UnitsScan(units[1..]);
      Embeds(a, b);
      UnitLocal(a, a + b, 0, |a|, 0);
      StringLocal(b, a + b, 0, |b|, |a|);
      assert !At(a + b, 0, '"');
      assert [units[0]] + units[1..] == units;
      assert ScanString(a + b, |a|) == Got(units[1..], |a + b|);
    }
  }

  lemma StringScans(units: seq<Unit>)
    ensures var s := DumpString(units); ScanString(s, 1) == Got(units, |s|)
  {
    UnitsScan(units);
    Embeds("\"", DumpUnits(units));
    StringLocal(DumpUnits(units), DumpString(units), 0, |DumpUnits(units)|, 1);
  }

  lemma ValueHead(s: string, i: nat)
    requires i <= |s| && ScanValue(s, i).Got?
    ensures i < |s| && !IsWhite(s[i]) && s[i] != ']' && s[i] != '}'
  {
  }

  lemma {:induction false} NumberScans(lexeme: string, i: nat)
    requires i <= |lexeme| && forall c :: c in lexeme ==> IsNumChar(c)
    ensures NumEnd(lexeme, i) == |lexeme|
    decreases |lexeme| - i
  {
    if i < |lexeme| { NumberScans(lexeme, i + 1); }
  }

  /** Two scannable texts in a row, at `p` in `s`. */
  predicate Placed(head: string, tail: string, s: string, p: nat) {
    Repeats(head, s, 0, |head|, p) && Repeats(tail, s, 0, |tail|, p + |head|)
  }

  lemma Places(a: string, head: string, tail: string)
    ensures Placed(head, tail, a + (head + tail), |a|)
  {
  }

  lemma ItemsStep(s: string, p: nat, v: Value, e: nat, vs: seq<Value>, end: nat)
    requires p <= |s| && ScanValue(s, p) == Got(v, e) && ScanItemTail(s, e) == Got(vs, end)
    ensures ScanItems(s, p) == Got([v] + vs, end)
  {
  }

  lemma ItemsJoin(s: string, p: nat, head: string, v: Value, tail: string, vs: seq<Value>)
    requires Placed(head, tail, s, p)
    requires ScanValue(head, 0) == Got(v, |head|)
    requires ScanItemTail(tail, 0) == Got(vs, |tail|)
    ensures ScanItems(s, p) == Got([v] + vs, p + |head| + |tail|)
  {
    TailStops(tail, 0);
    assert s[p + |head|] == tail[0];
    ValueLocal(head, s, 0, p);
    ItemTailLocal(tail, s, 0, p + |head|);
    ItemsStep(s, p, v, p + |head|, vs, p + |head| + |tail|);
  }

  lemma ItemTailText(head: string, v: Value, tail: string, vs: seq<Value>)
    requires ScanValue(head, 0) == Got(v, |head|) && ScanItemTail(tail, 0) == Got(vs, |tail|)
    ensures var s := ", " + (head + tail); ScanItemTail(s, 0) == Got([v] + vs, |s|)
  {
    var s := ", " + (head + tail);
    Places(", ", head, tail);
    ItemsJoin(s, 2, head, v, tail, vs);
    ValueHead(head, 0);
    CommaSpace(s, head, tail);
  }

  lemma {:induction false} ItemTailScans(items: seq<Value>)
    requires forall i :: 0 <= i < |items| ==> Writable(items[i])
    ensures ScanItemTail(DumpItemTail(items), 0) == Got(items, |DumpItemTail(items)|)
    decreases items, 1
  {
    if items != [] {
      DumpScans(items[0]);
      ItemTailScans(items[1..]);
      ItemTailText(Dump(items[0]), items[0], DumpItemTail(items[1..]), items[1..]);
      assert [items[0]] + items[1..] == items;
    }
  }

  lemma CommaSpace(s: string, head: string, tail: string)
    requires s == ", " + (head + tail)
    requires head != "" && !IsWhite(head[0])
    ensures SkipWhite(s, 0) == 0 && At(s, 0, ',') && SkipWhite(s, 1) == 2
  {
    assert s[0] == ',' && s[1] == ' ' && s[2] == head[0];
  }

  /** A member's text: its key up to the value at `k`, and the value. */
  predicate MemberText(text: string, k: nat, m: Member) {
    && text != "" && text[0] == '"' && k < |text|
    && ScanKey(text, 0) == Got(m.key, k)
    && ScanValue(text, k) == Got(m.value, |text|)
  }

  lemma MembersStep(s: string, p: nat, k: nat, m: Member, ms: seq<Member>, end: nat)
    requires ScanKey(s, p) == Got(m.key, k) && ScanMemberFrom(s, m.key, k) == Got(ms, end)
    ensures ScanMembers(s, p) == Got(ms, end)
  {
  }

  lemma MembersJoin(s: string, p: nat, text: string, k: nat, m: Member, tail: string, ms: seq<Member>)
    requires Placed(text, tail, s, p)
    requires MemberText(text, k, m)
    requires ScanMemberTail(tail, 0) == Got(ms, |tail|)
    ensures ScanMembers(s, p) == Got([m] + ms, p + |text| + |tail|)
  {
    ValueHead(text, k);
    assert s[k + p] == text[k];
    KeyLocal(text, s, 0, p);
    MemberFromJoin(s, p, text, k, m, tail, ms);
    MembersStep(s, p, p + k, m, [m] + ms, p + |text| + |tail|);
  }

  lemma MemberFromJoin(s: string, p: nat, text: string, k: nat, m: Member, tail: string, ms: seq<Member>)
    requires Placed(text, tail, s, p)
    requires k < |text| && ScanValue(text, k) == Got(m.value, |text|)
    requires ScanMemberTail(tail, 0) == Got(ms, |tail|)
    ensures ScanMemberFrom(s, m.key, p + k) == Got([m] + ms, p + |text| + |tail|)
  {
    TailStops(tail, 0);
    assert s[p + |text|] == tail[0];
    ValueLocal(text, s, k, p);
    MemberTailLocal(tail, s, 0, p + |text|);
  }

  lemma MemberTailText(text: string, k: nat, m: Member, tail: string, ms: seq<Member>)
    requires MemberText(text, k, m) && ScanMemberTail(tail, 0) == Got(ms, |tail|)
    ensures var s := ", " + (text + tail); ScanMemberTail(s, 0) == Got([m] + ms, |s|)
  {
    var s := ", " + (text + tail);
    Places(", ", text, tail);
    MembersJoin(s, 2, text, k, m, tail, ms);
    CommaSpace(s, text, tail);
  }

  lemma {:induction false} MemberTailScans(members: seq<Member>)
    requires forall i :: 0 <= i < |members| ==> Writable(members[i].value)
    ensures ScanMemberTail(DumpMemberTail(members), 0) == Got(members, |DumpMemberTail(members)|)
    decreases members, 1
  {
    if members != [] {
      var m := members[0];
      assert [m] + members[1..] == members;
      var tail := DumpMemberTail(members[1..]);
      assert DumpMemberTail(members) == ", " + (DumpMember(m) + tail);
      DumpScans(m.value);
      MemberTailScans(members[1..]);
      MemberScans(m);
      MemberTailText(DumpMember(m), |DumpString(m.key)| + 2, m, tail, members[1..]);
    }
  }

  /** A quoted key, a colon and a space, and a value. */
  lemma MemberTextJoin(s: string, q: string, key: seq<Unit>, v: string, value: Value)
    requires |s| == |q| + 2 + |v| && Repeats(q, s, 0, |q|, 0) && Repeats(v, s, 0, |v|, |q| + 2)
    requires q != "" && q[0] == '"' && ScanString(q, 1) == Got(key, |q|)
    requires s[|q|] == ':' && s[|q| + 1] == ' '
    requires ScanValue(v, 0) == Got(value, |v|)
    ensures MemberText(s, |q| + 2, Member(key, value))
  {
    StringLocal(q, s, 1, |q|, 0);
    ValueHead(v, 0);
    assert s[0 + |q| + 2] == v[0] && s[0 + 0] == q[0];
    assert SkipWhite(s, |q|) == |q|;
    assert SkipWhite(s, |q| + 1) == |q| + 2;
    ValueLocal(v, s, 0, |q| + 2);
  }

  lemma MemberScans(m: Member)
    requires ScanValue(Dump(m.value), 0) == Got(m.value, |Dump(m.value)|)
    ensures MemberText(DumpMember(m), |DumpString(m.key)| + 2, m)
  {
    StringScans(m.key);
    Spaced(DumpString(m.key), Dump(m.value));
    MemberTextJoin(DumpMember(m), DumpString(m.key), m.key, Dump(m.value), m.value);
  }

  lemma Spaced(q: string, v: string)
    ensures var s := q + ": " + v;
            && |s| == |q| + 2 + |v| && Repeats(q, s, 0, |q|, 0) && Repeats(v, s, 0, |v|, |q| + 2)
            && s[|q|] == ':' && s[|q| + 1] == ' '
  {
  }

  lemma WordScans(v: Value)
    requires v.Null? || v.Bool?
    ensures ScanValue(Dump(v), 0) == Got(v, |Dump(v)|)
  {
  }

  lemma NumScans(lexeme: string)
    requires Writable(Num(lexeme))
    ensures ScanValue(lexeme, 0) == Got(Num(lexeme), |lexeme|)
  {
    NumberScans(lexeme, 0);
    assert lexeme[0..|lexeme|] == lexeme;
    assert IsNumChar(lexeme[0]);
  }

  lemma ArrayJoin(s: string, head: string, v: Value, tail: string, vs: seq<Value>)
    requires Placed(head, tail, s, 1) && |s| == 1 + |head| + |tail| && s[0] == '['
    requires ScanValue(head, 0) == Got(v, |head|)
    requires ScanItemTail(tail, 0) == Got(vs, |tail|)
    ensures ScanValue(s, 0) == Got(Arr([v] + vs), |s|)
  {
    ItemsJoin(s, 1, head, v, tail, vs);
    ValueHead(head, 0);
    assert s[0 + 1] == head[0];
    assert SkipWhite(s, 1) == 1;
  }

  lemma ObjectJoin(s: string, text: string, k: nat, m: Member, tail: string, ms: seq<Member>)
    requires Placed(text, tail, s, 1) && |s| == 1 + |text| + |tail| && s[0] == '{'
    requires MemberText(text, k, m)
    requires ScanMemberTail(tail, 0) == Got(ms, |tail|)
    ensures ScanValue(s, 0) == Got(Obj([m] + ms), |s|)
  {
    MembersJoin(s, 1, text, k, m, tail, ms);
    assert s[0 + 1] == text[0];
    assert SkipWhite(s, 1) == 1;
  }

  lemma ArrayText(head: string, v: Value, tail: string, vs: seq<Value>)
    requires ScanValue(head, 0) == Got(v, |head|) && ScanItemTail(tail, 0) == Got(vs, |tail|)
    ensures var s := "[" + (head + tail); ScanValue(s, 0) == Got(Arr([v] + vs), |s|)
  {
    Places("[", head, tail);
    ArrayJoin("[" + (head + tail), head, v, tail, vs);
  }

  lemma ObjectText(text: string, k: nat, m: Member, tail: string, ms: seq<Member>)
    requires MemberText(text, k, m) && ScanMemberTail(tail, 0) == Got(ms, |tail|)
    ensures var s := "{" + (text + tail); ScanValue(s, 0) == Got(Obj([m] + ms), |s|)
  {
    Places("{", text, tail);
    ObjectJoin("{" + (text + tail), text, k, m, tail, ms);
  }

  lemma {:induction false} ArrScans(items: seq<Value>)
    requires items != [] && forall i :: 0 <= i < |items| ==> Writable(items[i])
    ensures ScanValue(Dump(Arr(items)), 0) == Got(Arr(items), |Dump(Arr(items))|)
    decreases items, 2
  {
    DumpScans(items[0]);
    ItemTailScans(items[1..]);
    ArrayText(Dump(items[0]), items[0], DumpItemTail(items[1..]), items[1..]);
    assert [items[0]] + items[1..] == items;
  }

  lemma {:induction false} ObjScans(members: seq<Member>)
    requires members != [] && forall i :: 0 <= i < |members| ==> Writable(members[i].value)
    ensures ScanValue(Dump(Obj(members)), 0) == Got(Obj(members), |Dump(Obj(members))|)
    decreases members, 2
  {
    var m := members[0];
    DumpScans(m.value);
    MemberTailScans(members[1..]);
    MemberScans(m);
    ObjectText(DumpMember(m), |DumpString(m.key)| + 2, m, DumpMemberTail(members[1..]), members[1..]);
    assert [m] + members[1..] == members;
  }

  /** Round trip: what `json.dumps` writes is scanned back whole. */
  lemma {:induction false} DumpScans(v: Value)
    requires Writable(v)
    ensures ScanValue(Dump(v), 0) == Got(v, |Dump(v)|)
    ensures Dump(v) != "" && !IsWhite(Dump(v)[0]) && Dump(v)[0] != ']' && Dump(v)[0] != '}'
    decreases v, 0
  {
    match v {
      case Num(lexeme) => NumScans(lexeme);
      case Str(units) => StringScans(units);
      case Arr(items) => if items != [] { ArrScans(items); }
      case Obj(members) => if members != [] { ObjScans(members); }
      case _ => WordScans(v);
    }
    ValueHead(Dump(v), 0);
  }
}
