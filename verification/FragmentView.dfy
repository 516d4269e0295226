module FragmentView {
  /** Rewriting a text fragment by fragment: every fragment a predicate picks becomes spaces, in place. */

  import opened Common

  /** Which characters separate fragments, and which fragments are blanked. */
  datatype Grammar = Grammar(delimiter: char -> bool, denial: string -> bool)

  /** Where the fragment around position `i` starts. */
  function Lo(g: Grammar, text: string, i: nat): (lo: nat)
    requires i <= |text|
    ensures lo <= i && (lo == 0 || g.delimiter(text[lo - 1]))
    ensures forall k :: lo <= k < i ==> !g.delimiter(text[k])
    decreases i
  {
    if i == 0 || g.delimiter(text[i - 1]) then i else Lo(g, text, i - 1)
  }

  /** Where the fragment around position `i` ends. */
  function Hi(g: Grammar, text: string, i: nat): (hi: nat)
    requires i <= |text|
    ensures i <= hi <= |text| && (hi == |text| || g.delimiter(text[hi]))
    ensures forall k :: i <= k < hi ==> !g.delimiter(text[k])
    decreases |text| - i
  {
    if i == |text| || g.delimiter(text[i]) then i else Hi(g, text, i + 1)
  }

  /** The bounds are the only ones: a stretch without delimiters, between delimiters or the ends of the text. */
  lemma Bounds(g: Grammar, text: string, lo: nat, hi: nat, i: nat)
    requires lo <= i <= hi <= |text| && (forall k :: lo <= k < hi ==> !g.delimiter(text[k]))
    requires (lo == 0 || g.delimiter(text[lo - 1])) && (hi == |text| || g.delimiter(text[hi]))
    ensures Lo(g, text, i) == lo && Hi(g, text, i) == hi
  {
  }

  function Fragment(g: Grammar, text: string, i: nat): string
    requires i < |text|
  {
    text[Lo(g, text, i)..Hi(g, text, i)]
  }

  function At(g: Grammar, text: string, i: nat): char
    requires i < |text|
  {
    if !g.delimiter(text[i]) && g.denial(Fragment(g, text, i)) then ' ' else text[i]
  }

  /** The rewritten text. */
  function View(g: Grammar, text: string): (v: string)
    ensures |v| == |text|
    ensures forall i :: 0 <= i < |text| ==> v[i] == At(g, text, i)
  {
    seq(|text|, i requires 0 <= i < |text| => At(g, text, i))
  }

  /** A fragment that is kept is a fragment of the view. */
  lemma KeptFragment(g: Grammar, text: string, i: nat)
    requires !g.delimiter(' ') && i < |text| && !g.delimiter(text[i]) && !g.denial(Fragment(g, text, i))
    ensures Fragment(g, View(g, text), i) == Fragment(g, text, i)
  {
    var v, lo, hi := View(g, text), Lo(g, text, i), Hi(g, text, i);
    forall k | lo <= k < hi ensures v[k] == text[k] { Bounds(g, text, lo, hi, k); }
    Bounds(g, v, lo, hi, i);
  }

  /** Rewriting twice changes nothing more. */
  lemma ViewIdempotent(g: Grammar, text: string)
    requires !g.delimiter(' ')
    ensures View(g, View(g, text)) == View(g, text)
  {
    var v := View(g, text);
    forall i | 0 <= i < |text| ensures At(g, v, i) == v[i] {
      if !g.delimiter(text[i]) && !g.denial(Fragment(g, text, i)) { KeptFragment(g, text, i); }
    }
  }

  predicate TrimmedAlike(g: Grammar, s: string, i: nat, j: nat) {
    i <= j <= |s| && Blank(s[..i]) && Blank(s[j..]) ==> g.denial(s) == g.denial(s[i..j])
  }

  /** White space around a fragment does not matter to the predicate. */
  ghost predicate Trims(g: Grammar) { forall s, i, j :: TrimmedAlike(g, s, i, j) }

  lemma TrimAt(g: Grammar, s: string, i: nat, j: nat)
    requires Trims(g) && i <= j <= |s| && Blank(s[..i]) && Blank(s[j..])
    ensures g.denial(s) == g.denial(s[i..j])
  {
    assert TrimmedAlike(g, s, i, j);
  }

  /** White space without a delimiter. */
  predicate Gap(g: Grammar, text: string, from: nat, to: nat)
    requires from <= to <= |text|
  {
    forall k :: from <= k < to ==> IsSpace(text[k]) && !g.delimiter(text[k])
  }

  /** `lo..hi` is what is left of `left..right` after trimming, and `left..right` is cut off by delimiters: after one
      (or at the start), and before or after one (or at the end). */
  predicate CutAndTrimmed(g: Grammar, text: string, left: nat, lo: nat, hi: nat, right: nat) {
    && left <= lo <= hi <= right <= |text|
    && (left == 0 || g.delimiter(text[left - 1]))
    && (right == |text| || g.delimiter(text[right]) || (hi == right && left < right && g.delimiter(text[right - 1])))
    && Gap(g, text, left, lo) && Gap(g, text, hi, right)
  }

  lemma PartFragment(g: Grammar, text: string, left: nat, lo: nat, hi: nat, right: nat, i: nat)
    requires CutAndTrimmed(g, text, left, lo, hi, right) && lo <= i < hi && !g.delimiter(text[i])
    ensures var part := text[lo..hi];
            var a, b := Lo(g, part, i - lo), Hi(g, part, i - lo);
            && Lo(g, text, i) == (if a == 0 then left else lo + a)
            && Hi(g, text, i) == (if b == hi - lo then right else lo + b)
  {
    var part := text[lo..hi];
    var a, b := Lo(g, part, i - lo), Hi(g, part, i - lo);
    var from := if a == 0 then left else lo + a;
    var to := if b == hi - lo then right else lo + b;
    forall k | from <= k < to ensures !g.delimiter(text[k]) {
      if lo <= k < hi { assert text[k] == part[k - lo]; }
    }
    if from != left { assert text[from - 1] == part[a - 1]; }
    if to != right { assert text[to] == part[b]; }
    Bounds(g, text, from, to, i);
  }

  /** Trimming the gaps off a stretch of text leaves the predicate's answer as it was. */
  lemma TrimGaps(g: Grammar, text: string, from: nat, lo: nat, hi: nat, to: nat)
    requires Trims(g) && from <= lo <= hi <= to <= |text| && Gap(g, text, from, lo) && Gap(g, text, hi, to)
    ensures g.denial(text[from..to]) == g.denial(text[lo..hi])
  {
    var whole := text[from..to];
    SliceOfSlice(text, from, to, lo - from, hi - from);
    TrimAt(g, whole, lo - from, hi - from);
  }

  /** The fragment of the whole around a position of the part, and that of the part, which differ by trimmed space. */
  lemma FragmentGaps(g: Grammar, text: string, left: nat, lo: nat, hi: nat, right: nat, i: nat)
    returns (from: nat, a: nat, b: nat, to: nat)
    requires CutAndTrimmed(g, text, left, lo, hi, right) && lo <= i < hi && !g.delimiter(text[i])
    ensures from <= a <= b <= to <= |text| && Gap(g, text, from, a) && Gap(g, text, b, to)
    ensures Fragment(g, text, i) == text[from..to] && Fragment(g, text[lo..hi], i - lo) == text[a..b]
  {
    PartFragment(g, text, left, lo, hi, right, i);
    var start, end := Lo(g, text[lo..hi], i - lo), Hi(g, text[lo..hi], i - lo);
    SliceOfSlice(text, lo, hi, start, end);
    from, a, b, to := Lo(g, text, i), lo + start, lo + end, Hi(g, text, i);
  }

  lemma PartDenied(g: Grammar, text: string, left: nat, lo: nat, hi: nat, right: nat, i: nat)
    requires Trims(g) && CutAndTrimmed(g, text, left, lo, hi, right) && lo <= i < hi && !g.delimiter(text[i])
    ensures g.denial(Fragment(g, text, i)) == g.denial(Fragment(g, text[lo..hi], i - lo))
  {
    var from, a, b, to := FragmentGaps(g, text, left, lo, hi, right, i);
    TrimGaps(g, text, from, a, b, to);
  }

  lemma PartAt(g: Grammar, text: string, left: nat, lo: nat, hi: nat, right: nat, i: nat)
    requires Trims(g) && CutAndTrimmed(g, text, left, lo, hi, right) && lo <= i < hi
    ensures View(g, text)[i] == View(g, text[lo..hi])[i - lo]
  {
    if !g.delimiter(text[i]) { PartDenied(g, text, left, lo, hi, right, i); }
    assert View(g, text[lo..hi])[i - lo] == At(g, text[lo..hi], i - lo);
  }

  /** The view of a part, cut at delimiters and then trimmed, is its part of the view of the whole. */
  lemma PartView(g: Grammar, text: string, left: nat, lo: nat, hi: nat, right: nat)
    requires Trims(g) && CutAndTrimmed(g, text, left, lo, hi, right)
    ensures View(g, text)[lo..hi] == View(g, text[lo..hi])
  {
    var part, view := View(g, text[lo..hi]), View(g, text);
    forall k | 0 <= k < hi - lo ensures view[lo + k] == part[k] {
      PartAt(g, text, left, lo, hi, right, lo + k);
    }
    SameSlice(view, lo, hi, part);
  }

  /** Around any one delimiter the two sides are independent. */
  lemma ViewSplits(g: Grammar, a: string, d: char, b: string)
    requires Trims(g) && g.delimiter(d)
    ensures View(g, a + [d] + b) == View(g, a) + [d] + View(g, b)
  {
    var text := a + [d] + b;
    var n := |a|;
    assert text[n] == d && text[0..n] == a && text[n + 1..|text|] == b;
    PartView(g, text, 0, 0, n, n);
    PartView(g, text, n + 1, n + 1, |text|, |text|);
    var v := View(g, text);
    assert v == v[0..n] + [v[n]] + v[n + 1..|text|];
  }

  // ---- the pass ----

  /** The character list is overwritten in place, fragment by fragment. */
  method Rewrite(g: Grammar, text: string) returns (context: string)
    ensures context == View(g, text)
  {
    var view := new char[|text|](i requires 0 <= i < |text| => text[i]);
    var start := 0;
    while start < |text|
      invariant start <= |text| == view.Length
      invariant start == 0 || start == |text| || g.delimiter(text[start - 1]) || g.delimiter(text[start])
      invariant forall k :: 0 <= k < start ==> view[k] == At(g, text, k)
      invariant forall k :: start <= k < |text| ==> view[k] == text[k]
    {
      if g.delimiter(text[start]) {
        start := start + 1;
      } else {
        var end := NextCut(g, text, start);
        forall k | start <= k < end ensures Lo(g, text, k) == start && Hi(g, text, k) == end { Bounds(g, text, start, end, k); }
        if g.denial(text[start..end]) {
          for k := start to end
            invariant forall m :: 0 <= m < k ==> view[m] == At(g, text, m)
            invariant forall m :: k <= m < |text| ==> view[m] == text[m]
          {
            view[k] := ' ';
          }
        }
        start := end;
      }
    }
    context := view[..];
  }

  method NextCut(g: Grammar, text: string, start: nat) returns (end: nat)
    requires start < |text| && !g.delimiter(text[start])
    ensures start < end <= |text| && (forall k :: start <= k < end ==> !g.delimiter(text[k]))
    ensures end < |text| ==> g.delimiter(text[end])
  {
    end := start + 1;
    while end < |text| && !g.delimiter(text[end])
      invariant start < end <= |text|
      invariant forall k :: start <= k < end ==> !g.delimiter(text[k])
    {
      end := end + 1;
    }
  }
}
