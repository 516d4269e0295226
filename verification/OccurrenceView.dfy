module OccurrenceView {
  /** The blanking pass `occurrence_context` of `intelligence/rules.py`: complete, casualty-only denials become
  spaces, everything else keeps its place. */

  import opened Common
  import opened FragmentView

  /** The characters that separate fragments. */
  predicate Delimiter(c: char) {
    c == '，' || c == ',' || c == '；' || c == ';' || c == '。' || c == '.' || c == '!' || c == '?'
    || c == '！' || c == '？' || c == '\n'
  }

  // ---- the casualty-denial grammar ----

  datatype Conjunction = NoConjunction | Dan | DanShi | Bing | BingQie | Qie
  datatype Negation =
    | BingWeiZaoCheng | BingWeiChuXian | BingWeiFaSheng | WeiZaoCheng | WeiChuXian | WeiFaSheng
    | MeiYouZaoCheng | MeiYouChuXian | MeiYouFaSheng | MeiYou | Wu
  datatype Casualty = RenYuanShangWang | ShangWang

  function ConjunctionText(c: Conjunction): string {
    match c
    case NoConjunction => ""
    case Dan => "但"
    case DanShi => "但是"
    case Bing => "并"
    case BingQie => "并且"
    case Qie => "且"
  }

  function NegationText(n: Negation): string {
    match n
    case BingWeiZaoCheng => "并未造成"
    case BingWeiChuXian => "并未出现"
    case BingWeiFaSheng => "并未发生"
    case WeiZaoCheng => "未造成"
    case WeiChuXian => "未出现"
    case WeiFaSheng => "未发生"
    case MeiYouZaoCheng => "没有造成"
    case MeiYouChuXian => "没有出现"
    case MeiYouFaSheng => "没有发生"
    case MeiYou => "没有"
    case Wu => "无"
  }

  function CasualtyText(c: Casualty): string { if c.RenYuanShangWang? then "人员伤亡" else "伤亡" }

  /** A conjunction, a negation and a casualty object, with nothing between or around them. */
  predicate Core(s: string) {
    exists a, b, c :: s == ConjunctionText(a) + NegationText(b) + CasualtyText(c)
  }

  /** Where the text starts after its leading white space, and where it ends before its trailing white space. */
  function Start(s: string): (n: nat)
    ensures n <= |s| && (n < |s| ==> !IsSpace(s[n]))
    ensures forall k :: 0 <= k < n ==> IsSpace(s[k])
    decreases |s|
  {
    if s != "" && IsSpace(s[0]) then Start(s[1..]) + 1 else 0
  }

  function End(s: string): (n: nat)
    ensures n <= |s| && (n > 0 ==> !IsSpace(s[n - 1]))
    ensures forall k :: n <= k < |s| ==> IsSpace(s[k])
    decreases |s|
  {
    if s != "" && IsSpace(s[|s| - 1]) then End(s[..|s| - 1]) else |s|
  }

  lemma Edges(s: string)
    ensures Blank(s) ==> Start(s) == |s| && End(s) == 0
    ensures !Blank(s) ==> Start(s) < End(s)
  {
  }

  /** Without the white space at both ends. */
  function Strip(s: string): string {
    Edges(s);
    if Blank(s) then "" else s[Start(s)..End(s)]
  }

  /** A fragment the pass blanks: a word of the grammar with any white space around it. */
  predicate Denial(fragment: string) { Core(Strip(fragment)) }

  lemma WordEnds(a: Conjunction, b: Negation, c: Casualty)
    ensures ConjunctionText(a) != "" ==> !IsSpace(ConjunctionText(a)[0])
    ensures NegationText(b) != "" && !IsSpace(NegationText(b)[0])
    ensures CasualtyText(c) != "" && !IsSpace(CasualtyText(c)[|CasualtyText(c)| - 1])
  {
  }

  lemma CoreEnds(s: string)
    requires Core(s)
    ensures s != "" && !IsSpace(s[0]) && !IsSpace(s[|s| - 1])
  {
    var a, b, c :| s == ConjunctionText(a) + NegationText(b) + CasualtyText(c);
    WordEnds(a, b, c);
    var x, y, z := ConjunctionText(a), NegationText(b), CasualtyText(c);
    assert s[0] == (if x != "" then x[0] else y[0]) && s[|s| - 1] == z[|z| - 1];
  }

  lemma BlankInside(s: string, i: nat, j: nat)
    requires i <= j <= |s| && Blank(s[..i]) && Blank(s[j..])
    ensures forall k :: 0 <= k < |s| && !(i <= k < j) ==> IsSpace(s[k])
    ensures Blank(s[i..j]) <==> Blank(s)
  {
    var before, part, after := s[..i], s[i..j], s[j..];
    forall k | 0 <= k < |s| && !(i <= k < j) ensures IsSpace(s[k]) {
      assert s[k] == if k < i then before[k] else after[k - j];
    }
    if Blank(part) {
      forall k | 0 <= k < |s| ensures IsSpace(s[k]) { if i <= k < j { assert s[k] == part[k - i]; } }
    }
    if Blank(s) {
      forall k | 0 <= k < j - i ensures IsSpace(part[k]) { assert part[k] == s[i + k]; }
    }
  }

  /** Stripping sees through white space that was trimmed off already. */
  lemma StripInside(s: string, i: nat, j: nat)
    requires i <= j <= |s| && Blank(s[..i]) && Blank(s[j..])
    ensures Strip(s) == Strip(s[i..j])
  {
    BlankInside(s, i, j);
    if !Blank(s[i..j]) {
      forall k | 0 <= k < |s| && !(i <= k < j) ensures IsSpace(s[k]) {
        if k < i { assert s[..i][k] == s[k]; } else { assert s[j..][k - j] == s[k]; }
      }
      StripPart(s, i, s[i..j]);
    }
  }

  lemma StripBetween(s: string, a: nat, b: nat)
    requires a < b <= |s| && !IsSpace(s[a]) && !IsSpace(s[b - 1])
    requires forall k :: 0 <= k < |s| && !(a <= k < b) ==> IsSpace(s[k])
    ensures Strip(s) == s[a..b]
  {
    assert !Blank(s) && Start(s) == a && End(s) == b;
  }

  lemma EdgesOf(s: string) returns (a: nat, b: nat)
    requires !Blank(s)
    ensures a < b <= |s| && !IsSpace(s[a]) && !IsSpace(s[b - 1]) && Strip(s) == s[a..b]
    ensures forall k :: 0 <= k < |s| && !(a <= k < b) ==> IsSpace(s[k])
  {
    Edges(s);
    a, b := Start(s), End(s);
  }

  lemma StripPart(s: string, i: nat, part: string)
    requires i + |part| <= |s| && part == s[i..i + |part|] && !Blank(part)
    requires forall k :: 0 <= k < |s| && !(i <= k < i + |part|) ==> IsSpace(s[k])
    ensures Strip(s) == Strip(part)
  {
    var a, b := EdgesOf(part);
    forall k | 0 <= k < |s| && !(i + a <= k < i + b) ensures IsSpace(s[k]) {
      if i <= k < i + |part| { assert s[k] == part[k - i]; }
    }
    assert s[i + a] == part[a] && s[i + b - 1] == part[b - 1];
    StripBetween(s, i + a, i + b);
    SliceOfSlice(s, i, i + |part|, a, b);
  }

  /** Some text is one of the words, with white space around it. */
  ghost predicate Padded(fragment: string, i: nat, j: nat) {
    i <= j <= |fragment| && Blank(fragment[..i]) && Core(fragment[i..j]) && Blank(fragment[j..])
  }

  lemma DenialPadded(fragment: string)
    requires Denial(fragment)
    ensures Padded(fragment, Start(fragment), End(fragment))
  {
    if Blank(fragment) { CoreEnds(""); }
    Edges(fragment);
  }

  lemma PaddedDenial(fragment: string, i: nat, j: nat)
    requires Padded(fragment, i, j)
    ensures Denial(fragment)
  {
    var core := fragment[i..j];
    CoreEnds(core);
    StripInside(fragment, i, j);
    assert Start(core) == 0 && End(core) == |core|;
    assert Strip(core) == core;
  }

  /** The blanked fragments are exactly the words of the grammar with white space around them. */
  lemma DenialLanguage(fragment: string)
    ensures Denial(fragment) <==> exists i: nat, j: nat :: Padded(fragment, i, j)
  {
    if Denial(fragment) { DenialPadded(fragment); }
    if i: nat, j: nat :| Padded(fragment, i, j) { PaddedDenial(fragment, i, j); }
  }

  const Casualties := Grammar(Delimiter, Denial)

  lemma DenialTrims()
    ensures Trims(Casualties) && !Delimiter(' ')
  {
    forall s: string, i: nat, j: nat ensures TrimmedAlike(Casualties, s, i, j) {
      if i <= j <= |s| && Blank(s[..i]) && Blank(s[j..]) { StripInside(s, i, j); }
    }
  }

  // ---- the view and its laws ----

  function Context(text: string): string { View(Casualties, text) }

  /** Length and every delimiter are kept, and nothing is written but spaces. */
  lemma ContextKeeps(text: string)
    ensures |Context(text)| == |text|
    ensures forall i :: 0 <= i < |text| ==> Context(text)[i] == text[i] || (Context(text)[i] == ' ' && !Delimiter(text[i]))
    ensures forall i :: 0 <= i < |text| ==> (Delimiter(Context(text)[i]) <==> Delimiter(text[i]))
  {
    forall i | 0 <= i < |text|
      ensures Context(text)[i] == text[i] || (Context(text)[i] == ' ' && !Delimiter(text[i]))
    {
      assert Context(text)[i] == At(Casualties, text, i);
    }
  }

  lemma ContextIdempotent(text: string)
    ensures Context(Context(text)) == Context(text)
  {
    ViewIdempotent(Casualties, text);
  }

  /** Around any one delimiter the two sides are independent. */
  lemma ContextSplits(a: string, d: char, b: string)
    requires Delimiter(d)
    ensures Context(a + [d] + b) == Context(a) + [d] + Context(b)
  {
    DenialTrims();
    ViewSplits(Casualties, a, d, b);
  }

  /** The view of a clause, taken alone and stripped, is its part of the view of the whole text. */
  lemma ClauseView(text: string, left: nat, lo: nat, hi: nat, right: nat)
    requires CutAndTrimmed(Casualties, text, left, lo, hi, right)
    ensures |Context(text)| == |text| && Context(text)[lo..hi] == Context(text[lo..hi])
  {
    DenialTrims();
    PartView(Casualties, text, left, lo, hi, right);
  }

  /** `occurrence_context`. */
  method OccurrenceContext(text: string) returns (context: string)
    ensures context == Context(text)
  {
    context := Rewrite(Casualties, text);
  }
}
