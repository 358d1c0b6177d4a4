/** `locate` and `splitLong` in apps/api/src/learning/chunker.ts: cutting one
    oversized paragraph at sentences, then words, then anywhere. */
module Splitter {
  import opened Whitespace

  const CHUNK_MAX := 1600

  /** A unit of text and where it sits in its source. */
  datatype Piece = Piece(text: string, start: nat, end: nat)

  // ----- cutting at separators

  /** The two patterns a paragraph is cut at: white space after the end of a
      sentence, or any white space. */
  datatype Pattern = Sentences | Words

  predicate EndsSentence(c: char) {
    c == '.' || c == '!' || c == '?' || c == '\U{2026}' || c == '\U{BB}'
  }

  /** A separator starts at `i`; it runs to the end of the white space. */
  predicate CutsAt(s: string, i: nat, pattern: Pattern) {
    i < |s| && IsSpace(s[i]) && (pattern == Words || (i > 0 && EndsSentence(s[i - 1])))
  }

  function NextCut(s: string, from: nat, pattern: Pattern): (i: nat)
    requires from <= |s|
    ensures from <= i <= |s| && (i < |s| ==> CutsAt(s, i, pattern))
    ensures forall k :: from <= k < i ==> !CutsAt(s, k, pattern)
    decreases |s| - from
  {
    if from == |s| || CutsAt(s, from, pattern) then from else NextCut(s, from + 1, pattern)
  }

  /** The units between separators, where they really are. */
  function Units(s: string, from: nat, pattern: Pattern): (units: seq<Piece>)
    requires from <= |s|
    ensures units != []
    decreases |s| - from
  {
    var i := NextCut(s, from, pattern);
    if i == |s| then [Piece(s[from..], from, |s|)]
    else [Piece(s[from..i], from, i)] + Units(s, SkipSpace(s, i), pattern)
  }

  function Texts(pieces: seq<Piece>): (texts: seq<string>)
    ensures |texts| == |pieces|
  {
    seq(|pieces|, i requires 0 <= i < |pieces| => pieces[i].text)
  }

  /** `s.split(pattern)`: the texts alone. */
  function Split(s: string, pattern: Pattern): seq<string> {
    Texts(Units(s, 0, pattern))
  }

  // ----- pieces that cover a stretch of text

  ghost predicate Inside(s: string, p: Piece) {
    p.start < p.end <= |s|
  }

  ghost predicate Verbatim(s: string, p: Piece) {
    Inside(s, p) && p.text == s[p.start..p.end]
  }

  /** No two line breaks in a row. */
  predicate Unbroken(s: string) {
    forall i :: 0 <= i < |s| - 1 ==> !(s[i] == '\n' && s[i + 1] == '\n')
  }

  /** The same text, but for how much white space separates its words. */
  ghost predicate SameWords(text: string, span: string) {
    Trimmed(text) && Trimmed(span) && Squashed(text) == Squashed(span)
  }

  /** The piece's text is what its span holds, word by word, with no blank line that is
      not in its span. */
  ghost predicate Faithful(s: string, p: Piece) {
    && Inside(s, p) && Trimmed(p.text) && SameWords(p.text, s[p.start..p.end])
    && Erase(p.text) == Erase(s[p.start..p.end])
    && (Unbroken(s[p.start..p.end]) ==> Unbroken(p.text))
  }

  lemma SliceIsUnbroken(s: string, from: nat, to: nat)
    requires from <= to <= |s| && Unbroken(s)
    ensures Unbroken(s[from..to])
  {
    var slice := s[from..to];
    forall i | 0 <= i < |slice| - 1 ensures !(slice[i] == '\n' && slice[i + 1] == '\n') {
      assert slice[i] == s[from + i] && slice[i + 1] == s[from + i + 1];
    }
  }

  /** Whatever covers a text without blank lines has none. */
  lemma {:induction false} CoversUnbroken(s: string, from: int, pieces: seq<Piece>, to: int)
    requires Covers(s, from, pieces, to) && Unbroken(s)
    ensures AllUnbroken(pieces)
    decreases |pieces|
  {
    hide Unbroken;
    if pieces != [] {
      var p := pieces[0];
      SliceIsUnbroken(s, p.start, p.end);
      CoversUnbroken(s, p.end, pieces[1..], to);
      assert pieces == [p] + pieces[1..];
    }
  }

  ghost predicate AllUnbroken(pieces: seq<Piece>) {
    forall i :: 0 <= i < |pieces| ==> Unbroken(pieces[i].text)
  }

  /** The pieces follow one another from `from` to `to` with only white space between them. */
  ghost predicate Covers(s: string, from: int, pieces: seq<Piece>, to: int)
    decreases |pieces|
  {
    if pieces == [] then Gap(s, from, to)
    else
      && Gap(s, from, pieces[0].start) && Faithful(s, pieces[0])
      && Covers(s, pieces[0].end, pieces[1..], to)
  }

  lemma CoversHead(s: string, from: int, pieces: seq<Piece>, to: int)
    requires pieces != [] && Covers(s, from, pieces, to)
    ensures Gap(s, from, pieces[0].start) && Faithful(s, pieces[0]) && Trimmed(pieces[0].text)
    ensures Covers(s, pieces[0].end, pieces[1..], to)
  {
  }

  lemma CoversCons(s: string, from: int, first: Piece, rest: seq<Piece>, to: int)
    requires Gap(s, from, first.start) && Faithful(s, first) && Covers(s, first.end, rest, to)
    ensures Covers(s, from, [first] + rest, to)
  {
    hide Faithful;
    assert ([first] + rest)[1..] == rest;
  }

  lemma CoversNext(s: string, from: int, pieces: seq<Piece>, k: nat, to: int)
    requires k < |pieces| && Covers(s, from, pieces[k..], to)
    ensures Gap(s, from, pieces[k].start) && Faithful(s, pieces[k]) && Trimmed(pieces[k].text)
    ensures Covers(s, pieces[k].end, pieces[k + 1..], to)
  {
    CoversHead(s, from, pieces[k..], to);
    assert pieces[k..][1..] == pieces[k + 1..];
  }

  ghost predicate AllVerbatim(s: string, pieces: seq<Piece>) {
    forall i :: 0 <= i < |pieces| ==> Verbatim(s, pieces[i])
  }

  lemma {:induction false} CoversJoin(s: string, from: int, a: seq<Piece>, mid: int, b: seq<Piece>, to: int)
    requires Covers(s, from, a, mid) && Covers(s, mid, b, to)
    requires a == [] ==> from == mid
    requires a != [] ==> a[|a| - 1].end == mid
    ensures Covers(s, from, a + b, to)
    decreases |a|
  {
    hide Faithful;
    if a == [] {
      assert a + b == b;
    } else {
      assert (a + b)[1..] == a[1..] + b;
      CoversJoin(s, a[0].end, a[1..], mid, b, to);
    }
  }

  function EndOf(from: int, pieces: seq<Piece>): int {
    if pieces == [] then from else pieces[|pieces| - 1].end
  }

  lemma {:induction false} CoversCut(s: string, from: int, a: seq<Piece>, b: seq<Piece>, to: int)
    requires Covers(s, from, a + b, to) && 0 <= from <= |s|
    ensures Covers(s, from, a, EndOf(from, a)) && Covers(s, EndOf(from, a), b, to)
    decreases |a|
  {
    hide Faithful;
    if a == [] {
      assert a + b == b;
    } else {
      assert (a + b)[1..] == a[1..] + b;
      CoversCut(s, a[0].end, a[1..], b, to);
    }
  }

  /** The last piece and what follows it, as one piece. */
  function Merged(a: Piece, b: Piece): Piece {
    Piece(a.text + " " + b.text, a.start, b.end)
  }

  lemma MergedIsFaithful(s: string, a: Piece, b: Piece)
    requires Faithful(s, a) && Faithful(s, b) && Gap(s, a.end, b.start) && a.end < b.start
    ensures Faithful(s, Merged(a, b))
  {
    var m := Merged(a, b);
    MergedHasWords(s, a, b);
    hide SameWords;
    EraseOfConcat(a.text + " ", b.text);
    EraseOfConcat(a.text, " ");
    assert Erase(" ") == "" by { EraseOfSpaces(" "); }
    assert m.text[0] == a.text[0] && m.text[|m.text| - 1] == b.text[|b.text| - 1];
    EraseAcrossGap(s, a.start, a.end, b.start, b.end);
    MergedIsUnbroken(s, a, b);
  }

  /** A space between two texts stands for the white space between their spans. */
  lemma MergedHasWords(s: string, a: Piece, b: Piece)
    requires Inside(s, a) && Inside(s, b) && Gap(s, a.end, b.start) && a.end < b.start
    requires SameWords(a.text, s[a.start..a.end]) && SameWords(b.text, s[b.start..b.end])
    ensures SameWords(Merged(a, b).text, s[a.start..b.end])
  {
    hide IsSpace;
    var gap := s[a.end..b.start];
    assert s[a.start..b.end] == s[a.start..a.end] + gap + s[b.start..b.end];
    assert forall i :: 0 <= i < |gap| ==> gap[i] == s[a.end + i];
    WordsMeet(s[a.start..a.end], gap, s[b.start..b.end]);
    SpaceIsSpace();
    WordsMeet(a.text, " ", b.text);
  }

  lemma SpaceIsSpace()
    ensures IsSpace(' ')
  {
  }

  lemma WordsMeet(a: string, gap: string, b: string)
    requires Trimmed(a) && Trimmed(b) && gap != "" && Gap(gap, 0, |gap|)
    ensures Trimmed(a + gap + b) && Squashed(a + gap + b) == Squashed(a) + " " + Squashed(b)
  {
    hide IsSpace;
    hide Squashed;
    var whole := a + gap + b;
    assert whole[0] == a[0] && whole[|whole| - 1] == b[|b| - 1];
    assert a + (gap + b) == whole;
    SquashedSplit(a, gap + b);
    SquashedGap(gap, b);
    assert Squashed(a) + (" " + Squashed(b)) == Squashed(a) + " " + Squashed(b);
  }

  lemma MergedIsUnbroken(s: string, a: Piece, b: Piece)
    requires Faithful(s, a) && Faithful(s, b) && a.end <= b.start
    ensures Unbroken(s[a.start..b.end]) ==> Unbroken(Merged(a, b).text)
  {
    hide IsSpace;
    hide Erase;
    var span := s[a.start..b.end];
    if Unbroken(span) {
      SliceIsUnbroken(span, 0, a.end - a.start);
      SliceIsUnbroken(span, b.start - a.start, b.end - a.start);
      assert span[0..a.end - a.start] == s[a.start..a.end];
      assert span[b.start - a.start..b.end - a.start] == s[b.start..b.end];
      SpaceKeepsUnbroken(a.text, b.text);
    }
  }

  lemma SpaceKeepsUnbroken(a: string, b: string)
    requires Unbroken(a) && Unbroken(b)
    ensures Unbroken(a + " " + b)
  {
    var whole := a + " " + b;
    forall i | 0 <= i < |whole| - 1 ensures !(whole[i] == '\n' && whole[i + 1] == '\n') {
      if i + 1 < |a| {
        assert whole[i] == a[i] && whole[i + 1] == a[i + 1];
      } else if i > |a| {
        assert whole[i] == b[i - |a| - 1] && whole[i + 1] == b[i - |a|];
      } else {
        assert whole[|a|] == ' ';
      }
    }
  }

  /** One more piece at the end of a cover. */
  lemma CoversGrow(s: string, from: int, pieces: seq<Piece>, at: int, p: Piece)
    requires Covers(s, from, pieces, at) && EndOf(from, pieces) == at
    requires Gap(s, at, p.start) && Faithful(s, p)
    ensures Covers(s, from, pieces + [p], p.end)
  {
    assert [p][1..] == [];
    CoversJoin(s, from, pieces, at, [p], p.end);
  }

  /** Merging the next piece into the last one of a cover. */
  lemma CoversMerge(s: string, from: int, pieces: seq<Piece>, last: Piece, p: Piece)
    requires 0 <= from <= |s| && Covers(s, from, pieces + [last], last.end)
    requires Gap(s, last.end, p.start) && Faithful(s, p) && last.end < p.start
    ensures Covers(s, from, pieces + [Merged(last, p)], p.end)
  {
    CoversCut(s, from, pieces, [last], last.end);
    MergedIsFaithful(s, last, p);
    CoversGrow(s, from, pieces, EndOf(from, pieces), Merged(last, p));
  }

  /** Cutting a trimmed text at its separators loses only white space. */
  lemma {:induction false} UnitsCover(s: string, from: nat, pattern: Pattern)
    requires from < |s| && !IsSpace(s[from]) && !IsSpace(s[|s| - 1])
    ensures var units := Units(s, from, pattern);
            && Covers(s, from, units, |s|) && AllVerbatim(s, units)
            && (pattern == Words ==> forall i :: 0 <= i < |units| ==> NoSpace(units[i].text))
    decreases |s| - from
  {
    hide SameWords;
    var first, j := FirstUnit(s, from, pattern);
    hide CutsAt;
    hide NextCut;
    hide NoSpace;
    if first.end < |s| {
      UnitsCover(s, j, pattern);
      CoversWiden(s, first.end, j, Units(s, j, pattern), |s|);
      CoversCons(s, from, first, Units(s, j, pattern), |s|);
    } else {
      CoversCons(s, from, first, [], |s|);
      assert [first] + [] == [first];
    }
  }

  lemma CoversWiden(s: string, from: int, mid: int, pieces: seq<Piece>, to: int)
    requires Gap(s, from, mid) && Covers(s, mid, pieces, to)
    ensures Covers(s, from, pieces, to)
  {
    hide Faithful;
  }

  /** The unit at `from`, and where the next one starts. */
  lemma FirstUnit(s: string, from: nat, pattern: Pattern) returns (first: Piece, next: nat)
    requires from < |s| && !IsSpace(s[from]) && !IsSpace(s[|s| - 1])
    ensures first.start == from < first.end && Verbatim(s, first) && Faithful(s, first)
    ensures pattern == Words ==> NoSpace(first.text)
    ensures if first.end == |s| then Units(s, from, pattern) == [first]
            else first.end < next < |s| && Gap(s, first.end, next) && !IsSpace(s[next])
                 && Units(s, from, pattern) == [first] + Units(s, next, pattern)
  {
    var i := NextCut(s, from, pattern);
    first := Piece(s[from..i], from, i);
    next := if i < |s| then SkipSpace(s, i) else i;
    assert !CutsAt(s, from, pattern) && !CutsAt(s, i - 1, pattern);
    if pattern == Words {
      forall k | 0 <= k < |first.text| ensures !IsSpace(first.text[k]) {
        assert !CutsAt(s, from + k, pattern);
      }
    }
    assert s[from..|s|] == s[from..];
  }

  /** A unit runs from where it starts to the next separator, or to the end. */
  predicate IsUnit(s: string, p: Piece, pattern: Pattern) {
    p.start <= |s| && NextCut(s, p.start, pattern) == p.end
  }

  ghost predicate AllUnits(s: string, pieces: seq<Piece>, pattern: Pattern) {
    forall i :: 0 <= i < |pieces| ==> IsUnit(s, pieces[i], pattern)
  }

  /** The unit at `from`, and the place the next one starts at. */
  lemma UnitsStep(s: string, from: nat, pattern: Pattern) returns (next: nat)
    requires from <= |s|
    ensures var i := NextCut(s, from, pattern);
            && (i == |s| ==> Units(s, from, pattern) == [Piece(s[from..i], from, i)])
            && (i < |s| ==> from < next <= |s|
                            && Units(s, from, pattern) == [Piece(s[from..i], from, i)] + Units(s, next, pattern))
  {
    var i := NextCut(s, from, pattern);
    next := |s|;
    if i < |s| {
      next := SkipSpace(s, i);
      SkipMoves(s, i);
    } else {
      assert s[from..i] == s[from..];
    }
  }

  lemma {:induction false} UnitsAreWhole(s: string, from: nat, pattern: Pattern)
    requires from <= |s|
    ensures AllUnits(s, Units(s, from, pattern), pattern)
    decreases |s| - from
  {
    var next := UnitsStep(s, from, pattern);
    hide Units;
    hide NextCut;
    if NextCut(s, from, pattern) < |s| {
      UnitsAreWhole(s, next, pattern);
    }
  }

  /** It ends at the end of the text or before white space that follows a full stop, an
      exclamation or question mark, an ellipsis or a closing guillemet, and holds no
      such place. */
  ghost predicate IsSentence(s: string, p: Piece) {
    && 0 <= p.start <= p.end <= |s| && p.text == s[p.start..p.end]
    && (p.end < |s| ==> p.end > 0 && s[p.end - 1] in ".!?\U{2026}\U{BB}" && IsSpace(s[p.end]))
    && (forall k :: p.start < k < p.end && s[k - 1] in ".!?\U{2026}\U{BB}" ==> !IsSpace(s[k]))
  }

  /** A text is cut at the ends of its sentences, and at no other place. */
  lemma {:induction false} SentencesEndThere(s: string, from: nat, i: nat)
    requires from <= |s| && i < |Units(s, from, Sentences)|
    ensures IsSentence(s, Units(s, from, Sentences)[i])
    decreases |s| - from
  {
    hide Units;
    hide NextCut;
    hide CutsAt;
    hide IsSentence;
    hide IsSpace;
    var next := UnitsStep(s, from, Sentences);
    FirstSentence(s, from);
    if NextCut(s, from, Sentences) < |s| && i > 0 {
      SentencesEndThere(s, next, i - 1);
      assert Units(s, from, Sentences)[i] == Units(s, next, Sentences)[i - 1];
    }
  }

  lemma FirstSentence(s: string, from: nat)
    requires from <= |s|
    ensures var end := NextCut(s, from, Sentences); IsSentence(s, Piece(s[from..end], from, end))
  {
    hide IsSpace;
    var end := NextCut(s, from, Sentences);
    forall k | from < k < end && s[k - 1] in ".!?\U{2026}\U{BB}" ensures !IsSpace(s[k]) {
      assert !CutsAt(s, k, Sentences);
    }
  }

  lemma SkipMoves(s: string, i: nat)
    requires i < |s| && IsSpace(s[i])
    ensures i < SkipSpace(s, i) <= |s|
  {
    hide IsSpace;
  }

  lemma NextCutIs(s: string, from: nat, i: nat, pattern: Pattern)
    requires from <= i <= |s| && (i == |s| || CutsAt(s, i, pattern))
    requires forall k :: from <= k < i ==> !CutsAt(s, k, pattern)
    ensures NextCut(s, from, pattern) == i
  {
    var j := NextCut(s, from, pattern);
    hide CutsAt;
    assert !(j < i) && !(i < j);
  }

  // ----- finding the units again

  predicate OccursAt(s: string, unit: string, i: int) {
    0 <= i && i + |unit| <= |s| && s[i..i + |unit|] == unit
  }

  /** `s.indexOf(unit, from)`. */
  function IndexOf(s: string, unit: string, from: nat): (i: int)
    ensures i == -1 || (from <= i && OccursAt(s, unit, i))
    ensures forall k :: from <= k && (k < i || i == -1) ==> !OccursAt(s, unit, k)
    decreases |s| - from
  {
    if from + |unit| > |s| then -1
    else if OccursAt(s, unit, from) then from
    else IndexOf(s, unit, from + 1)
  }

  function Located(source: string, units: seq<string>, cursor: nat): seq<Piece> {
    if units == [] then []
    else
      var at := IndexOf(source, units[0], cursor);
      var start := if at == -1 then cursor else at;
      [Piece(units[0], start, start + |units[0]|)] + Located(source, units[1..], start + |units[0]|)
  }

  /** Every unit is found, so `locate` never falls back to its cursor. */
  ghost predicate AllFound(source: string, units: seq<string>, cursor: nat)
    decreases |units|
  {
    units == [] ||
    var at := IndexOf(source, units[0], cursor);
    at >= 0 && AllFound(source, units[1..], at + |units[0]|)
  }

  method Locate(source: string, units: seq<string>, from: nat) returns (pieces: seq<Piece>)
    ensures pieces == Located(source, units, from)
  {
    hide Located;
    hide IndexOf;
    var cursor: nat := from;
    pieces := [];
    LocateStarts(source, units, from);
    for k := 0 to |units|
      invariant pieces + Located(source, units[k..], cursor) == Located(source, units, from)
    {
      LocateStep(source, units, k, cursor, pieces);
      var at := IndexOf(source, units[k], cursor);
      var start := if at == -1 then cursor else at;
      cursor := start + |units[k]|;
      pieces := pieces + [Piece(units[k], start, cursor)];
    }
    LocateEnds(source, units, cursor, pieces);
  }

  lemma LocateStarts(source: string, units: seq<string>, from: nat)
    ensures [] + Located(source, units[0..], from) == Located(source, units, from)
  {
    assert units[0..] == units;
  }

  lemma LocateStep(source: string, units: seq<string>, k: nat, cursor: nat, pieces: seq<Piece>)
    requires k < |units|
    ensures var at := IndexOf(source, units[k], cursor);
            var start := if at == -1 then cursor else at;
            pieces + [Piece(units[k], start, start + |units[k]|)] + Located(source, units[k + 1..], start + |units[k]|)
            == pieces + Located(source, units[k..], cursor)
  {
    hide IndexOf;
    assert units[k..][0] == units[k] && units[k..][1..] == units[k + 1..];
  }

  lemma LocateEnds(source: string, units: seq<string>, cursor: nat, pieces: seq<Piece>)
    ensures pieces + Located(source, units[|units|..], cursor) == pieces
  {
    assert units[|units|..] == [];
  }

  /** A unit that starts without white space is first met where it really is,
      when only white space lies before it. */
  lemma FirstMeeting(s: string, p: Piece, cursor: nat)
    requires Verbatim(s, p) && Trimmed(p.text) && Gap(s, cursor, p.start)
    ensures IndexOf(s, p.text, cursor) == p.start
  {
    assert OccursAt(s, p.text, p.start);
    forall k: nat | cursor <= k < p.start ensures !OccursAt(s, p.text, k) {
      assert IsSpace(s[k]);
      if k + |p.text| <= |s| {
        assert s[k..k + |p.text|][0] == s[k];
      }
    }
  }

  /** `locate` returns the true offsets of units that cover a stretch of the source. */
  lemma {:induction false} LocateIsTrue(s: string, from: nat, pieces: seq<Piece>, to: int)
    requires Covers(s, from, pieces, to) && AllVerbatim(s, pieces)
    ensures Located(s, Texts(pieces), from) == pieces
    ensures AllFound(s, Texts(pieces), from)
    decreases |pieces|
  {
    hide SameWords;
    if pieces != [] {
      var p, rest := pieces[0], pieces[1..];
      CoversHead(s, from, pieces, to);
      assert Verbatim(s, p);
      FirstMeeting(s, p, from);
      assert Texts(pieces) == [p.text] + Texts(rest);
      LocateIsTrue(s, p.end, rest, to);
      hide Covers;
      hide Faithful;
      hide Texts;
      hide IndexOf;
      assert pieces == [p] + rest;
      LocatedStep(s, p, Texts(rest), from);
    }
  }

  lemma LocatedStep(s: string, p: Piece, rest: seq<string>, from: nat)
    requires IndexOf(s, p.text, from) == p.start && p.end == p.start + |p.text|
    ensures Located(s, [p.text] + rest, from) == [p] + Located(s, rest, p.end)
    ensures AllFound(s, rest, p.end) ==> AllFound(s, [p.text] + rest, from)
  {
    hide IndexOf;
    assert ([p.text] + rest)[1..] == rest;
  }

  // ----- packing units into pieces

  ghost predicate Short(p: Piece) {
    |p.text| <= CHUNK_MAX
  }

  /** How long the unit is that starts at `at`. */
  function UnitLength(s: string, at: nat, pattern: Pattern): int {
    if at <= |s| then NextCut(s, at, pattern) - at else 0
  }

  /** No piece had room for the unit its successor starts with. */
  ghost predicate Greedy(s: string, pieces: seq<Piece>, pattern: Pattern) {
    forall i :: 0 <= i < |pieces| - 1 ==> NoRoomFor(s, pieces[i], pieces[i + 1].start, pattern)
  }

  ghost predicate NoRoomFor(s: string, p: Piece, next: int, pattern: Pattern) {
    next >= 0 && |p.text| + UnitLength(s, next, pattern) + 1 > CHUNK_MAX
  }

  /** The text is cut at separators alone. */
  ghost predicate AtCuts(s: string, pieces: seq<Piece>, pattern: Pattern) {
    forall i :: 0 <= i < |pieces| ==> CutOrEnd(s, pieces[i].end, pattern)
  }

  ghost predicate CutOrEnd(s: string, at: int, pattern: Pattern) {
    at == |s| || (0 <= at && CutsAt(s, at, pattern))
  }

  ghost predicate AllShort(pieces: seq<Piece>) {
    forall i :: 0 <= i < |pieces| ==> Short(pieces[i])
  }

  /** Over the ceiling only if it is a slice of the source. */
  ghost predicate LongIsVerbatim(s: string, pieces: seq<Piece>) {
    forall i :: 0 <= i < |pieces| ==> Short(pieces[i]) || Verbatim(s, pieces[i])
  }

  /** Sentences packed up to the ceiling; only a sentence alone may exceed it. */
  method PackSentences(ghost s: string, ghost from: nat, sentences: seq<Piece>, ghost to: nat) returns (pieces: seq<Piece>)
    requires Covers(s, from, sentences, to) && AllVerbatim(s, sentences) && sentences != [] && from <= |s|
    requires AllUnits(s, sentences, Sentences)
    ensures Covers(s, from, pieces, to) && pieces != []
    ensures Greedy(s, pieces, Sentences) && AtCuts(s, pieces, Sentences)
    ensures LongIsVerbatim(s, pieces)
  {
    hide Covers;
    hide Faithful;
    hide LongIsVerbatim;
    hide Greedy;
    hide AtCuts;
    hide NoRoomFor;
    hide CutOrEnd;
    hide IsUnit;
    hide IsSpace;
    pieces := [];
    var current := sentences[0];
    assert sentences[0..] == sentences;
    CoversNext(s, from, sentences, 0, to);
    CoversStart(s, from, current);
    LongStart(s, current);
    PackStart(s, current, Sentences);
    for k := 1 to |sentences|
      invariant Covers(s, from, pieces + [current], current.end)
      invariant Covers(s, current.end, sentences[k..], to)
      invariant Greedy(s, pieces + [current], Sentences) && AtCuts(s, pieces + [current], Sentences)
      invariant LongIsVerbatim(s, pieces + [current])
    {
      var sentence := sentences[k];
      CoversNext(s, current.end, sentences, k, to);
      if |current.text| + |sentence.text| + 1 > CHUNK_MAX {
        CoversGrow(s, from, pieces + [current], current.end, sentence);
        PackGrow(s, pieces, current, sentence, Sentences);
        LongGrow(s, pieces + [current], sentence);
        pieces := pieces + [current];
        current := sentence;
      } else {
        LastIsAtCut(s, pieces, current, Sentences);
        NextIsApart(s, current.end, sentence, Sentences);
        CoversMerge(s, from, pieces, current, sentence);
        PackMerge(s, pieces, current, sentence, Sentences);
        LongMerge(s, pieces, current, Merged(current, sentence));
        current := Merged(current, sentence);
      }
    }
    assert sentences[|sentences|..] == [];
    CoversDone(s, from, pieces + [current], to);
    pieces := pieces + [current];
  }

  lemma CoversStart(s: string, from: int, first: Piece)
    requires Gap(s, from, first.start) && Faithful(s, first)
    ensures Covers(s, from, [] + [first], first.end)
  {
    CoversCons(s, from, first, [], first.end);
    assert [] + [first] == [first] + [];
  }

  lemma CoversDone(s: string, from: int, pieces: seq<Piece>, to: int)
    requires pieces != [] && Covers(s, from, pieces, pieces[|pieces| - 1].end)
    requires Covers(s, pieces[|pieces| - 1].end, [], to)
    ensures Covers(s, from, pieces, to)
  {
    CoversJoin(s, from, pieces, pieces[|pieces| - 1].end, [], to);
    assert pieces + [] == pieces;
  }

  lemma LongStart(s: string, first: Piece)
    requires Verbatim(s, first)
    ensures LongIsVerbatim(s, [] + [first])
  {
  }

  lemma LongGrow(s: string, pieces: seq<Piece>, next: Piece)
    requires LongIsVerbatim(s, pieces) && Verbatim(s, next)
    ensures LongIsVerbatim(s, pieces + [next])
  {
  }

  lemma LongMerge(s: string, pieces: seq<Piece>, last: Piece, merged: Piece)
    requires LongIsVerbatim(s, pieces + [last]) && Short(merged)
    ensures LongIsVerbatim(s, pieces + [merged])
  {
    var before, after := pieces + [last], pieces + [merged];
    assert forall i :: 0 <= i < |pieces| ==> before[i] == after[i];
  }

  lemma ShortGrow(pieces: seq<Piece>, next: Piece)
    requires AllShort(pieces) && Short(next)
    ensures AllShort(pieces + [next])
  {
  }

  lemma PackStart(s: string, first: Piece, pattern: Pattern)
    ensures Greedy(s, [] + [first], pattern)
    ensures IsUnit(s, first, pattern) ==> AtCuts(s, [] + [first], pattern)
  {
  }

  lemma VerbatimLength(s: string, p: Piece)
    requires Verbatim(s, p)
    ensures |p.text| == p.end - p.start
  {
  }

  lemma UnitEndsAtCut(s: string, p: Piece, pattern: Pattern)
    requires IsUnit(s, p, pattern) && p.start >= 0
    ensures CutOrEnd(s, p.end, pattern)
  {
  }

  lemma LastIsAtCut(s: string, pieces: seq<Piece>, last: Piece, pattern: Pattern)
    requires AtCuts(s, pieces + [last], pattern)
    ensures CutOrEnd(s, last.end, pattern)
  {
    assert (pieces + [last])[|pieces|] == last;
  }

  /** White space stands between a cut and the piece behind it. */
  lemma NextIsApart(s: string, at: int, next: Piece, pattern: Pattern)
    requires CutOrEnd(s, at, pattern) && Gap(s, at, next.start) && Faithful(s, next)
    ensures at < next.start
  {
    hide IsSpace;
    assert s[next.start..next.end][0] == s[next.start];
  }

  /** A unit that found no room opens the next piece ... */
  lemma PackGrow(s: string, pieces: seq<Piece>, last: Piece, next: Piece, pattern: Pattern)
    requires IsUnit(s, next, pattern) && next.start >= 0
    requires |last.text| + (next.end - next.start) + 1 > CHUNK_MAX
    ensures Greedy(s, pieces + [last], pattern) ==> Greedy(s, pieces + [last] + [next], pattern)
    ensures AtCuts(s, pieces + [last], pattern) ==> AtCuts(s, pieces + [last] + [next], pattern)
  {
    var before, after := pieces + [last], pieces + [last] + [next];
    assert forall i :: 0 <= i < |before| ==> before[i] == after[i];
    assert NoRoomFor(s, last, next.start, pattern);
    assert CutOrEnd(s, next.end, pattern);
    hide NoRoomFor;
    hide CutOrEnd;
  }

  /** ... and one that did ends where the piece now ends. */
  lemma PackMerge(s: string, pieces: seq<Piece>, last: Piece, next: Piece, pattern: Pattern)
    requires IsUnit(s, next, pattern)
    ensures Greedy(s, pieces + [last], pattern) ==> Greedy(s, pieces + [Merged(last, next)], pattern)
    ensures AtCuts(s, pieces + [last], pattern) ==> AtCuts(s, pieces + [Merged(last, next)], pattern)
  {
    var before, after := pieces + [last], pieces + [Merged(last, next)];
    assert forall i :: 0 <= i < |pieces| ==> before[i] == after[i];
    assert before[|pieces|].start == after[|pieces|].start;
    assert CutOrEnd(s, next.end, pattern);
    hide NoRoomFor;
    hide CutOrEnd;
  }

  function Head(p: Piece): Piece
    requires |p.text| > CHUNK_MAX
  {
    Piece(p.text[..CHUNK_MAX], p.start, p.start + CHUNK_MAX)
  }

  function Tail(p: Piece): Piece
    requires |p.text| > CHUNK_MAX
  {
    Piece(p.text[CHUNK_MAX..], p.start + CHUNK_MAX, p.end)
  }

  lemma SliceIsFaithful(s: string, p: Piece)
    requires Verbatim(s, p) && NoSpace(p.text) && |p.text| > CHUNK_MAX
    ensures Verbatim(s, Head(p)) && Faithful(s, Head(p)) && Short(Head(p))
    ensures Verbatim(s, Tail(p)) && Faithful(s, Tail(p)) && NoSpace(Tail(p).text)
  {
    assert Head(p).text == s[p.start..p.start + CHUNK_MAX];
    assert Tail(p).text == s[p.start + CHUNK_MAX..p.end];
  }

  /** Cut an oversized run of text raw until its remainder fits. */
  method SliceRaw(ghost s: string, ghost from: nat, done: seq<Piece>, word: Piece) returns (pieces: seq<Piece>, run: Piece)
    requires from <= |s| && Covers(s, from, done + [word], word.end)
    requires Verbatim(s, word) && Faithful(s, word) && NoSpace(word.text)
    requires AllShort(done)
    requires Greedy(s, done + [word], Words)
    ensures Covers(s, from, pieces + [run], run.end) && run.end == word.end
    ensures AllShort(pieces)
    ensures Short(run) && Greedy(s, pieces + [run], Words)
  {
    pieces, run := done, word;
    while |run.text| > CHUNK_MAX
      invariant Covers(s, from, pieces + [run], run.end) && run.end == word.end
      invariant Verbatim(s, run) && Faithful(s, run) && NoSpace(run.text)
      invariant AllShort(pieces)
      invariant Greedy(s, pieces + [run], Words)
      decreases |run.text|
    {
      SliceIsFaithful(s, run);
      CoversCut(s, from, pieces, [run], run.end);
      CoversGrow(s, from, pieces, EndOf(from, pieces), Head(run));
      CoversGrow(s, from, pieces + [Head(run)], Head(run).end, Tail(run));
      PackSlice(s, pieces, run);
      ShortGrow(pieces, Head(run));
      pieces, run := pieces + [Head(run)], Tail(run);
    }
  }

  lemma PackSlice(s: string, pieces: seq<Piece>, run: Piece)
    requires Greedy(s, pieces + [run], Words) && |run.text| > CHUNK_MAX && run.start >= 0
    ensures Greedy(s, pieces + [Head(run)] + [Tail(run)], Words)
  {
    var before, after := pieces + [run], pieces + [Head(run)] + [Tail(run)];
    assert forall i :: 0 <= i < |pieces| ==> before[i] == after[i];
    assert before[|pieces|].start == after[|pieces|].start;
    assert NoRoomFor(s, Head(run), Tail(run).start, Words);
    hide NoRoomFor;
  }

  /** A wall of text without punctuation: packed by words, a single oversized word cut raw. */
  method PackWords(s: string, piece: Piece) returns (out: seq<Piece>)
    requires Verbatim(s, piece) && Faithful(s, piece) && CutOrEnd(s, piece.end, Sentences)
    ensures Covers(s, piece.start, out, piece.end) && Greedy(s, out, Words)
    ensures AllShort(out)
  {
    hide NoSpace;
    hide CutOrEnd;
    hide Verbatim;
    hide Covers;
    hide Faithful;
    hide AllShort;
    hide Greedy;
    hide AtCuts;
    hide IsUnit;
    hide IsSpace;
    hide Split;
    hide Located;
    var words := Locate(s, Split(piece.text, Words), piece.start);
    WordsAreLocated(s, piece);
    CoversNothingYet(s);
    ghost var from, to := piece.start, piece.end;
    assert words[0..] == words;
    CoversNext(s, from, words, 0, to);
    CoversStart(s, from, words[0]);
    PackStart(s, words[0], Words);
    UnitEndsAtCut(s, words[0], Words);
    var run;
    out, run := SliceRaw(s, from, [], words[0]);
    for k := 1 to |words|
      invariant Covers(s, from, out + [run], run.end)
      invariant Covers(s, run.end, words[k..], to)
      invariant AllShort(out)
      invariant Short(run) && Greedy(s, out + [run], Words) && CutOrEnd(s, run.end, Words)
    {
      var word := words[k];
      CoversNext(s, run.end, words, k, to);
      UnitEndsAtCut(s, word, Words);
      VerbatimLength(s, word);
      if |run.text| + |word.text| + 1 > CHUNK_MAX {
        CoversGrow(s, from, out + [run], run.end, word);
        PackGrow(s, out, run, word, Words);
        ShortGrow(out, run);
        out, run := SliceRaw(s, from, out + [run], word);
      } else {
        NextIsApart(s, run.end, word, Words);
        CoversMerge(s, from, out, run, word);
        PackMerge(s, out, run, word, Words);
        run := Merged(run, word);
      }
    }
    assert words[|words|..] == [];
    CoversDone(s, from, out + [run], to);
    ShortGrow(out, run);
    out := out + [run];
  }

  function Shift(p: Piece, offset: nat): Piece {
    Piece(p.text, p.start + offset, p.end + offset)
  }

  function ShiftAll(pieces: seq<Piece>, offset: nat): (shifted: seq<Piece>)
    ensures |shifted| == |pieces|
  {
    seq(|pieces|, i requires 0 <= i < |pieces| => Shift(pieces[i], offset))
  }

  /** A cover of a slice is a cover of the whole, moved by the slice's offset. */
  lemma {:induction false} CoversShift(s: string, base: nat, end: nat, from: nat, pieces: seq<Piece>, to: nat)
    requires base <= end <= |s| && Covers(s[base..end], from, pieces, to)
    ensures Covers(s, base + from, ShiftAll(pieces, base), base + to)
    decreases |pieces|
  {
    hide SameWords;
    hide Unbroken;
    hide Erase;
    hide IsSpace;
    if pieces == [] {
      GapInSlice(s, base, end, from, to);
    } else {
      var p := pieces[0];
      CoversHead(s[base..end], from, pieces, to);
      GapInSlice(s, base, end, from, p.start);
      FaithfulShift(s, base, end, p);
      CoversShift(s, base, end, p.end, pieces[1..], to);
      hide Faithful;
      hide Covers;
      CoversCons(s, base + from, Shift(p, base), ShiftAll(pieces[1..], base), base + to);
      assert ShiftAll(pieces, base) == [Shift(p, base)] + ShiftAll(pieces[1..], base);
    }
  }

  lemma FaithfulShift(s: string, base: nat, end: nat, p: Piece)
    requires base <= end <= |s| && Faithful(s[base..end], p)
    ensures Faithful(s, Shift(p, base))
    ensures Verbatim(s[base..end], p) ==> Verbatim(s, Shift(p, base))
  {
    hide Squashed;
    SliceOfSlice(s, base, end, p.start, p.end);
  }

  lemma PieceIsTrimmed(s: string, piece: Piece)
    requires Faithful(s, piece)
    ensures Inside(s, piece) && Trimmed(piece.text)
  {
  }

  lemma WordsAreLocated(s: string, piece: Piece)
    requires Verbatim(s, piece) && Faithful(s, piece) && CutOrEnd(s, piece.end, Sentences)
    ensures var words := Located(s, Split(piece.text, Words), piece.start);
            && words != [] && Covers(s, piece.start, words, piece.end) && AllVerbatim(s, words)
            && (forall i :: 0 <= i < |words| ==> NoSpace(words[i].text))
            && AllFound(s, Split(piece.text, Words), piece.start)
            && AllUnits(s, words, Words)
  {
    hide Faithful;
    hide Covers;
    hide Units;
    hide ShiftAll;
    hide Verbatim;
    hide NoSpace;
    hide IsUnit;
    hide Split;
    MovedCover(s, piece);
    MovedAreWords(s, piece);
    LocateIsTrue(s, piece.start, Moved(piece), piece.end);
  }

  /** The words of a piece, placed in the whole. */
  ghost function Moved(piece: Piece): (moved: seq<Piece>)
    ensures moved != []
  {
    ShiftAll(Units(piece.text, 0, Words), piece.start)
  }

  lemma MovedCover(s: string, piece: Piece)
    requires Verbatim(s, piece) && Faithful(s, piece)
    ensures Covers(s, piece.start, Moved(piece), piece.end)
  {
    hide Faithful;
    hide Covers;
    hide Units;
    hide ShiftAll;
    hide IsSpace;
    hide NoSpace;
    hide AllVerbatim;
    PieceIsTrimmed(s, piece);
    UnitsCover(piece.text, 0, Words);
    CoversShift(s, piece.start, piece.end, 0, Units(piece.text, 0, Words), |piece.text|);
  }

  lemma MovedAreWords(s: string, piece: Piece)
    requires Verbatim(s, piece) && Faithful(s, piece) && CutOrEnd(s, piece.end, Sentences)
    ensures AllVerbatim(s, Moved(piece)) && AllUnits(s, Moved(piece), Words)
    ensures forall i :: 0 <= i < |Moved(piece)| ==> NoSpace(Moved(piece)[i].text)
    ensures Texts(Moved(piece)) == Split(piece.text, Words)
  {
    hide Faithful;
    hide Covers;
    hide Units;
    hide NoSpace;
    hide IsUnit;
    hide IsSpace;
    PieceIsTrimmed(s, piece);
    UnitsCover(piece.text, 0, Words);
    UnitsMoved(s, piece, Units(piece.text, 0, Words));
    WordsStayWhole(s, piece);
  }

  /** The words of a slice are words of the whole, when the slice ends at a separator. */
  lemma WordsStayWhole(s: string, piece: Piece)
    requires Verbatim(s, piece) && Faithful(s, piece) && CutOrEnd(s, piece.end, Sentences)
    ensures AllUnits(s, ShiftAll(Units(piece.text, 0, Words), piece.start), Words)
  {
    var units := Units(piece.text, 0, Words);
    UnitsAreWhole(piece.text, 0, Words);
    hide Faithful;
    hide Units;
    hide IsUnit;
    forall i | 0 <= i < |units| ensures IsUnit(s, Shift(units[i], piece.start), Words) {
      assert IsUnit(piece.text, units[i], Words);
      WordStaysWhole(s, piece, units[i]);
    }
  }

  lemma WordStaysWhole(s: string, piece: Piece, p: Piece)
    requires Verbatim(s, piece) && CutOrEnd(s, piece.end, Sentences)
    requires 0 <= p.start && IsUnit(piece.text, p, Words)
    ensures IsUnit(s, Shift(p, piece.start), Words)
  {
    hide IsSpace;
    var base := piece.start;
    forall k | base + p.start <= k < base + p.end ensures !CutsAt(s, k, Words) {
      assert !CutsAt(piece.text, k - base, Words) && piece.text[k - base] == s[k];
    }
    assert p.end < |piece.text| ==> piece.text[p.end] == s[base + p.end];
    NextCutIs(s, base + p.start, base + p.end, Words);
  }

  lemma UnitsMoved(s: string, piece: Piece, units: seq<Piece>)
    requires Verbatim(s, piece) && AllVerbatim(piece.text, units)
    requires forall i :: 0 <= i < |units| ==> NoSpace(units[i].text)
    ensures AllVerbatim(s, ShiftAll(units, piece.start))
    ensures Texts(ShiftAll(units, piece.start)) == Texts(units)
    ensures forall i :: 0 <= i < |units| ==> NoSpace(ShiftAll(units, piece.start)[i].text)
  {
    hide NoSpace;
    var moved := ShiftAll(units, piece.start);
    forall i | 0 <= i < |moved| ensures Verbatim(s, moved[i]) {
      assert Verbatim(piece.text, units[i]);
      SliceOfSlice(s, piece.start, piece.end, units[i].start, units[i].end);
    }
    assert Texts(moved) == Texts(units);
  }

  lemma ShortJoin(a: seq<Piece>, b: seq<Piece>)
    requires AllShort(a) && AllShort(b)
    ensures AllShort(a + b)
  {
  }

  /** One piece stands for itself if it fits; an oversized one is cut into runs of words. */
  ghost predicate Replaces(s: string, piece: Piece, parts: seq<Piece>) {
    if Short(piece) then parts == [piece]
    else Covers(s, piece.start, parts, piece.end) && Greedy(s, parts, Words)
  }

  /** The pieces are `packed`, with each oversized one of them cut further. */
  ghost predicate Refines(s: string, pieces: seq<Piece>, packed: seq<Piece>)
    decreases |packed|
  {
    if packed == [] then pieces == []
    else
      exists n: nat :: n <= |pieces| && RefinesLast(s, pieces, n, packed)
  }

  ghost predicate RefinesLast(s: string, pieces: seq<Piece>, n: nat, packed: seq<Piece>)
    requires n <= |pieces| && packed != []
    decreases |packed|, 0
  {
    Refines(s, pieces[..n], packed[..|packed| - 1]) && Replaces(s, packed[|packed| - 1], pieces[n..])
  }

  lemma RefinesGrow(s: string, pieces: seq<Piece>, packed: seq<Piece>, piece: Piece, parts: seq<Piece>)
    requires Refines(s, pieces, packed) && Replaces(s, piece, parts)
    ensures Refines(s, pieces + parts, packed + [piece])
  {
    var grown, all := pieces + parts, packed + [piece];
    assert grown[..|pieces|] == pieces && grown[|pieces|..] == parts;
    assert all[..|all| - 1] == packed && all[|all| - 1] == piece;
    assert RefinesLast(s, grown, |pieces|, all);
  }

  /** `splitLong`: nothing but white space is lost, every offset is true, and no
      piece is over the ceiling. The paragraph is cut after sentences alone, each piece
      taking in as many as fit; only a sentence over the ceiling is cut at words,
      as many to a piece as fit, and raw where one word does not. */
  method SplitLong(paragraph: string) returns (pieces: seq<Piece>, ghost packed: seq<Piece>)
    requires Trimmed(paragraph)
    ensures Covers(paragraph, 0, pieces, |paragraph|)
    ensures AllShort(pieces)
    ensures |paragraph| <= CHUNK_MAX ==> pieces == [Piece(paragraph, 0, |paragraph|)]
    ensures |paragraph| > CHUNK_MAX ==>
              && Covers(paragraph, 0, packed, |paragraph|) && LongIsVerbatim(paragraph, packed)
              && AtCuts(paragraph, packed, Sentences) && Greedy(paragraph, packed, Sentences)
              && Refines(paragraph, pieces, packed)
  {
    packed := [];
    if |paragraph| <= CHUNK_MAX {
      pieces := [Piece(paragraph, 0, |paragraph|)];
      assert paragraph[0..|paragraph|] == paragraph;
      return;
    }
    hide LongIsVerbatim;
    hide AtCuts;
    hide Greedy;
    hide Refines;
    var sentences := Locate(paragraph, Split(paragraph, Sentences), 0);
    UnitsCover(paragraph, 0, Sentences);
    UnitsAreWhole(paragraph, 0, Sentences);
    LocateIsTrue(paragraph, 0, Units(paragraph, 0, Sentences), |paragraph|);
    var runs := PackSentences(paragraph, 0, sentences, |paragraph|);
    packed := runs;
    pieces := SplitOversized(paragraph, runs);
  }

  /** The pieces that fit as they are, and the others cut further. */
  method SplitOversized(paragraph: string, packed: seq<Piece>) returns (pieces: seq<Piece>)
    requires Covers(paragraph, 0, packed, |paragraph|) && LongIsVerbatim(paragraph, packed)
    requires AtCuts(paragraph, packed, Sentences)
    ensures Covers(paragraph, 0, pieces, |paragraph|) && AllShort(pieces) && Refines(paragraph, pieces, packed)
  {
    hide Greedy;
    hide Refines;
    hide Replaces;
    hide LongIsVerbatim;
    hide AtCuts;
    hide CutOrEnd;
    hide Covers;
    hide Faithful;
    hide AllShort;
    pieces := [];
    RefinesNothing(paragraph);
    assert packed[0..] == packed && packed[..0] == [];
    CoversNothingYet(paragraph);
    for k := 0 to |packed|
      invariant Covers(paragraph, 0, pieces, EndOf(0, pieces)) && EndOf(0, pieces) <= |paragraph|
      invariant Covers(paragraph, EndOf(0, pieces), packed[k..], |paragraph|)
      invariant AllShort(pieces)
      invariant Refines(paragraph, pieces, packed[..k])
    {
      var piece := packed[k];
      CoversNext(paragraph, EndOf(0, pieces), packed, k, |paragraph|);
      var parts := [piece];
      CoversAlone(paragraph, piece);
      PackedPiece(paragraph, packed, k);
      if |piece.text| > CHUNK_MAX {
        parts := PackWords(paragraph, piece);
      }
      PieceIsReplaced(paragraph, piece, parts);
      RefinesGrow(paragraph, pieces, packed[..k], piece, parts);
      assert packed[..k] + [piece] == packed[..k + 1];
      CoversPart(paragraph, pieces, piece, parts, packed[k + 1..], |paragraph|);
      ShortJoin(pieces, parts);
      pieces := pieces + parts;
    }
    assert packed[|packed|..] == [] && packed[..|packed|] == packed;
    CoversJoin(paragraph, 0, pieces, EndOf(0, pieces), [], |paragraph|);
    assert pieces + [] == pieces;
  }

  lemma CoversNothingYet(s: string)
    ensures Covers(s, 0, [], 0) && AllShort([])
  {
  }

  lemma PackedPiece(s: string, packed: seq<Piece>, k: nat)
    requires k < |packed| && LongIsVerbatim(s, packed) && AtCuts(s, packed, Sentences)
    ensures Short(packed[k]) || Verbatim(s, packed[k])
    ensures CutOrEnd(s, packed[k].end, Sentences)
  {
  }

  lemma RefinesNothing(s: string)
    ensures Refines(s, [], [])
  {
  }

  lemma PieceIsReplaced(s: string, piece: Piece, parts: seq<Piece>)
    requires Short(piece) ==> parts == [piece]
    requires !Short(piece) ==> Covers(s, piece.start, parts, piece.end) && Greedy(s, parts, Words) && AllShort(parts)
    ensures Replaces(s, piece, parts) && AllShort(parts)
  {
    hide Covers;
    hide Greedy;
  }

  /** Parts that cover a piece can stand for it, in a longer cover. */
  lemma CoversPart(s: string, pieces: seq<Piece>, piece: Piece, parts: seq<Piece>, rest: seq<Piece>, to: int)
    requires Covers(s, 0, pieces, EndOf(0, pieces)) && EndOf(0, pieces) <= |s|
    requires Gap(s, EndOf(0, pieces), piece.start)
    requires Covers(s, piece.start, parts, piece.end) && Covers(s, piece.end, rest, to)
    ensures var grown := pieces + parts;
            Covers(s, 0, grown, EndOf(0, grown)) && Covers(s, EndOf(0, grown), rest, to) && EndOf(0, grown) <= |s|
  {
    var at, grown := EndOf(0, pieces), pieces + parts;
    CoversWiden(s, at, piece.start, parts, piece.end);
    CoversJoin(s, 0, pieces, at, parts, piece.end);
    assert grown + [] == grown;
    CoversCut(s, 0, grown, [], piece.end);
    CoversWiden(s, EndOf(0, grown), piece.end, rest, to);
  }

  lemma CoversAlone(s: string, piece: Piece)
    requires Faithful(s, piece)
    ensures Covers(s, piece.start, [piece], piece.end)
  {
    assert [piece][1..] == [];
  }
}
