/** White space as the platform's `\s` and `trim` see it, and text compared up to it. */
module Whitespace {

  predicate IsSpace(c: char) {
    || '\t' <= c <= '\r' || c == ' ' || c == '\U{A0}' || c == '\U{1680}' || '\U{2000}' <= c <= '\U{200A}'
    || c == '\U{2028}' || c == '\U{2029}' || c == '\U{202F}' || c == '\U{205F}' || c == '\U{3000}' || c == '\U{FEFF}'
  }

  /** Only white space between two offsets. */
  predicate Gap(s: string, from: int, to: int) {
    0 <= from <= to <= |s| && forall i :: from <= i < to ==> IsSpace(s[i])
  }

  predicate NoSpace(s: string) {
    forall i :: 0 <= i < |s| ==> !IsSpace(s[i])
  }

  /** Not empty, and no white space at either end. */
  predicate Trimmed(s: string) {
    s != "" && !IsSpace(s[0]) && !IsSpace(s[|s| - 1])
  }

  function SkipSpace(s: string, from: nat): (i: nat)
    requires from <= |s|
    ensures Gap(s, from, i)
    ensures i < |s| ==> !IsSpace(s[i])
    decreases |s| - from
  {
    if from < |s| && IsSpace(s[from]) then SkipSpace(s, from + 1) else from
  }

  lemma SkipSpaceIs(s: string, from: nat, i: nat)
    requires Gap(s, from, i) && (i < |s| ==> !IsSpace(s[i]))
    ensures SkipSpace(s, from) == i
  {
    var j := SkipSpace(s, from);
    hide IsSpace;
    hide SkipSpace;
    assert !(i < j) && !(j < i);
  }

  function BackSpace(s: string, from: nat, to: nat): (i: nat)
    requires from <= to <= |s|
    ensures from <= i && Gap(s, i, to)
    ensures i > from ==> !IsSpace(s[i - 1])
  {
    if from < to && IsSpace(s[to - 1]) then BackSpace(s, from, to - 1) else to
  }

  function Trim(s: string): string {
    var i := SkipSpace(s, 0);
    s[i..BackSpace(s, i, |s|)]
  }

  lemma TrimOfTrimmed(s: string)
    requires Trimmed(s)
    ensures Trim(s) == s
  {
    assert SkipSpace(s, 0) == 0;
    assert BackSpace(s, 0, |s|) == |s|;
  }

  /** Where the trimmed part of a slice sits in the whole. */
  lemma TrimInPlace(whole: string, from: nat, to: nat)
    requires from <= to <= |whole|
    ensures var raw := whole[from..to];
            var start := from + SkipSpace(raw, 0);
            var end := start + |Trim(raw)|;
            && end <= to && Trim(raw) == whole[start..end]
            && Gap(whole, from, start) && Gap(whole, end, to)
            && (Trim(raw) == "" || Trimmed(Trim(raw)))
  {
    hide IsSpace;
    var raw := whole[from..to];
    var i := SkipSpace(raw, 0);
    var j := BackSpace(raw, i, |raw|);
    SliceOfSlice(whole, from, to, i, j);
    GapInSlice(whole, from, to, 0, i);
    GapInSlice(whole, from, to, j, |raw|);
    hide SkipSpace;
    hide BackSpace;
  }

  lemma SliceOfSlice(s: string, base: nat, end: nat, i: nat, j: nat)
    requires base <= end <= |s| && i <= j <= end - base
    ensures s[base..end][i..j] == s[base + i..base + j]
  {
    var a, b := s[base..end][i..j], s[base + i..base + j];
    assert |a| == |b| && forall k :: 0 <= k < |a| ==> a[k] == b[k];
  }

  lemma GapInSlice(s: string, base: nat, end: nat, from: nat, to: nat)
    requires base <= end <= |s| && Gap(s[base..end], from, to)
    ensures Gap(s, base + from, base + to)
  {
    hide IsSpace;
    forall i | base + from <= i < base + to ensures IsSpace(s[i]) {
      assert s[base..end][i - base] == s[i];
    }
  }

  /** The text without its white space. */
  function Erase(s: string): string {
    if s == "" then "" else (if IsSpace(s[0]) then "" else [s[0]]) + Erase(s[1..])
  }

  lemma {:induction false} EraseOfConcat(a: string, b: string)
    ensures Erase(a + b) == Erase(a) + Erase(b)
  {
    hide IsSpace;
    if a == "" {
      assert a + b == b;
    } else {
      EraseOfConcat(a[1..], b);
      var first := if IsSpace(a[0]) then "" else [a[0]];
      assert (a + b)[0] == a[0] && (a + b)[1..] == a[1..] + b;
      assert Erase(a + b) == first + Erase(a[1..] + b);
      assert first + (Erase(a[1..]) + Erase(b)) == first + Erase(a[1..]) + Erase(b);
    }
  }

  lemma {:induction false} EraseOfSpaces(s: string)
    requires Gap(s, 0, |s|)
    ensures Erase(s) == ""
  {
    hide IsSpace;
    if s != "" {
      assert forall i :: 0 <= i < |s[1..]| ==> s[1..][i] == s[i + 1];
      EraseOfSpaces(s[1..]);
    }
  }

  /** White space between two parts does not show once it is erased. */
  lemma EraseAcrossGap(s: string, a: nat, b: nat, c: nat, d: nat)
    requires a <= b <= c <= d <= |s| && Gap(s, b, c)
    ensures Erase(s[a..d]) == Erase(s[a..b]) + Erase(s[c..d])
  {
    hide IsSpace;
    hide Erase;
    assert s[a..d] == s[a..b] + (s[b..c] + s[c..d]);
    EraseOfConcat(s[a..b], s[b..c] + s[c..d]);
    EraseOfConcat(s[b..c], s[c..d]);
    assert forall i :: 0 <= i < c - b ==> s[b..c][i] == s[b + i];
    EraseOfSpaces(s[b..c]);
  }

  // ----- runs of white space

  /** Every run of white space becomes one space. */
  function Squashed(s: string): string {
    if s == "" then ""
    else if !IsSpace(s[0]) then [s[0]] + Squashed(s[1..])
    else if |s| > 1 && IsSpace(s[1]) then Squashed(s[1..])
    else " " + Squashed(s[1..])
  }

  /** Leading white space squashes to one space. */
  lemma {:induction false} SquashedGap(gap: string, rest: string)
    requires gap != "" && Gap(gap, 0, |gap|) && (rest != "" ==> !IsSpace(rest[0]))
    ensures Squashed(gap + rest) == " " + Squashed(rest)
  {
    hide IsSpace;
    var s := gap + rest;
    assert s[0] == gap[0] && s[1..] == gap[1..] + rest;
    if |gap| > 1 {
      assert s[1] == gap[1];
      assert forall i :: 0 <= i < |gap[1..]| ==> gap[1..][i] == gap[i + 1];
      SquashedGap(gap[1..], rest);
    } else {
      assert s[1..] == rest;
      assert |s| > 1 ==> s[1] == rest[0];
    }
  }

  /** A part that ends without white space squashes by itself. */
  lemma {:induction false} SquashedSplit(a: string, rest: string)
    requires a != "" && !IsSpace(a[|a| - 1])
    ensures Squashed(a + rest) == Squashed(a) + Squashed(rest)
  {
    hide IsSpace;
    var s := a + rest;
    assert s[0] == a[0] && s[1..] == a[1..] + rest;
    if |a| == 1 {
      assert s[1..] == rest && a[1..] == "";
      SquashedEmpty();
    } else {
      SquashedSplit(a[1..], rest);
      assert s[1] == a[1];
    }
  }

  lemma SquashedEmpty()
    ensures Squashed("") == ""
  {
  }

  /** Squashing a trimmed text leaves it trimmed. */
  lemma {:induction false} SquashedStaysTrimmed(a: string)
    requires a != "" && !IsSpace(a[|a| - 1])
    ensures Squashed(a) != "" && !IsSpace(Squashed(a)[|Squashed(a)| - 1])
    ensures !IsSpace(a[0]) ==> Squashed(a)[0] == a[0]
  {
    hide IsSpace;
    if |a| > 1 {
      SquashedStaysTrimmed(a[1..]);
    } else {
      assert a[1..] == "";
      SquashedEmpty();
    }
  }
}
