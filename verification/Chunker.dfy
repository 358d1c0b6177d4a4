/** `chunkDocument` in apps/api/src/learning/chunker.ts: paragraphs packed into
    chunks that know their heading, carry a seam, and cite their own offsets. */
module Chunker {
  import opened Text
  import opened Whitespace
  import opened Splitter
  import opened Options

  const CHUNK_TARGET := 1100
  const CHUNK_OVERLAP := 150
  const SEAM_MARK: string := "\U{2026} "
  const BLANK_LINE: string := "\n\n"

  datatype Chunk = Chunk(number: nat, heading: string, text: string, start: nat, end: nat)

  /** A recognised heading line and the title it gives to what follows. */
  datatype Head = Head(start: nat, end: nat, title: string)

  // ----- reading the document

  /** `rawContent.replace(/\r\n?/g, '\n')`. */
  function Normalised(raw: string): string {
    if raw == "" then ""
    else if raw[0] != '\r' then [raw[0]] + Normalised(raw[1..])
    else "\n" + Normalised(if |raw| > 1 && raw[1] == '\n' then raw[2..] else raw[1..])
  }

  /** Every carriage return becomes a line feed, together with a line feed behind it ... */
  lemma {:induction false} FoldsEachReturn(a: string, mark: string, b: string)
    requires mark == "\r\n" || (mark == "\r" && (b == "" || b[0] != '\n'))
    ensures Normalised(a + mark + b) == Normalised(a) + "\n" + Normalised(b)
    decreases |a|
  {
    hide Normalised;
    var whole, tail := a + mark + b, "\n" + Normalised(b);
    if a == "" {
      assert whole == mark + b;
      FoldsMark(mark, b);
      FoldsNothing();
      assert "" + tail == tail;
    } else if |a| > 1 && a[0] == '\r' && a[1] == '\n' {
      DropOfConcat(a, mark, b, 2);
      FoldsEachReturn(a[2..], mark, b);
      FoldsPair(a);
      FoldsPair(whole);
      Regrouped("\n", Normalised(a[2..]), tail);
    } else {
      DropOfConcat(a, mark, b, 1);
      FoldsEachReturn(a[1..], mark, b);
      FoldsFirst(a);
      assert whole[0] == a[0] && (|a| == 1 ==> whole[1] == mark[0]);
      FoldsFirst(whole);
      Regrouped([if a[0] == '\r' then '\n' else a[0]], Normalised(a[1..]), tail);
    }
    Regrouped(Normalised(a), "\n", Normalised(b));
  }

  lemma DropOfConcat(a: string, mark: string, b: string, n: nat)
    requires n <= |a|
    ensures (a + mark + b)[n..] == a[n..] + mark + b
  {
  }

  lemma FoldsNothing()
    ensures Normalised("") == ""
  {
  }

  lemma FoldsMark(mark: string, b: string)
    requires mark == "\r\n" || (mark == "\r" && (b == "" || b[0] != '\n'))
    ensures Normalised(mark + b) == "\n" + Normalised(b)
  {
    assert (mark + b)[|mark|..] == b;
  }

  lemma FoldsPair(raw: string)
    requires |raw| > 1 && raw[0] == '\r' && raw[1] == '\n'
    ensures Normalised(raw) == "\n" + Normalised(raw[2..])
  {
  }

  lemma FoldsFirst(raw: string)
    requires raw != "" && !(|raw| > 1 && raw[0] == '\r' && raw[1] == '\n')
    ensures Normalised(raw) == [if raw[0] == '\r' then '\n' else raw[0]] + Normalised(raw[1..])
  {
  }

  /** ... no other character changes, and no carriage return is left. */
  lemma {:induction false} FoldsReturnsOnly(raw: string)
    ensures '\r' !in raw ==> Normalised(raw) == raw
    ensures '\r' !in Normalised(raw)
    decreases |raw|
  {
    if raw != "" {
      FoldsReturnsOnly(raw[1..]);
      if |raw| > 1 {
        FoldsReturnsOnly(raw[2..]);
      }
    }
  }

  /** Where the next `\n{2,}` starts, or the end. */
  function NextBreak(s: string, from: nat): (i: nat)
    requires from <= |s|
    ensures from <= i <= |s|
    ensures i < |s| ==> i + 1 < |s| && s[i] == '\n' == s[i + 1]
    ensures forall k :: from <= k < i && k + 1 < |s| ==> !(s[k] == '\n' && s[k + 1] == '\n')
    decreases |s| - from
  {
    if from + 1 < |s| && s[from] == '\n' == s[from + 1] then from
    else if from == |s| then from
    else NextBreak(s, from + 1)
  }

  function BreakEnd(s: string, from: nat): (i: nat)
    requires from <= |s|
    ensures from <= i <= |s| && Gap(s, from, i)
    ensures from < |s| && s[from] == '\n' ==> from < i
    decreases |s| - from
  {
    if from < |s| && s[from] == '\n' then BreakEnd(s, from + 1) else from
  }

  function FirstLine(paragraph: string): (line: string)
    ensures line <= paragraph && '\n' !in line
  {
    if paragraph == "" || paragraph[0] == '\n' then "" else [paragraph[0]] + FirstLine(paragraph[1..])
  }

  function Hashes(line: string): (n: nat)
    ensures n <= |line|
  {
    if line == "" || line[0] != '#' then 0 else 1 + Hashes(line[1..])
  }

  predicate NoLineTerminator(s: string) {
    '\n' !in s && '\r' !in s && '\U{2028}' !in s && '\U{2029}' !in s
  }

  /** `/^(#{1,6})\s+(.*)$/`: the second group, white space around it dropped. */
  function Title(line: string): Option<string> {
    var n := Hashes(line);
    if n == 0 || n > 6 || n == |line| || !IsSpace(line[n]) then None
    else
      var rest := line[SkipSpace(line, n)..];
      if NoLineTerminator(rest) then Some(Trim(rest)) else None
  }

  predicate AllHashes(s: string) {
    forall i :: 0 <= i < |s| ==> s[i] == '#'
  }

  /** One to six hashes, some white space, and the rest of one line. */
  ghost predicate HeadingForm(hashes: string, gap: string, rest: string) {
    && 1 <= |hashes| <= 6 && AllHashes(hashes)
    && gap != "" && Gap(gap, 0, |gap|)
    && (rest != "" ==> !IsSpace(rest[0])) && NoLineTerminator(rest)
  }

  /** A line of that form is a heading, and its title is the trimmed rest ... */
  lemma TitleIsTheRest(hashes: string, gap: string, rest: string)
    requires HeadingForm(hashes, gap, rest)
    ensures Title(hashes + gap + rest) == Some(Trim(rest))
  {
    hide IsSpace;
    hide Trim;
    hide NoLineTerminator;
    var line := hashes + gap + rest;
    assert line[..|hashes|] == hashes && line[|hashes|] == gap[0];
    assert !IsSpace('#') by { HashIsNoSpace(); }
    HashesAre(line, |hashes|);
    assert forall i :: 0 <= i < |gap| ==> line[|hashes| + i] == gap[i];
    assert rest != "" ==> line[|hashes| + |gap|] == rest[0];
    SkipSpaceIs(line, |hashes|, |hashes| + |gap|);
    assert line[|hashes| + |gap|..] == rest;
    hide Hashes;
    hide SkipSpace;
  }

  lemma HashIsNoSpace()
    ensures !IsSpace('#')
  {
  }

  lemma {:induction false} HashesAre(line: string, n: nat)
    requires n <= |line| && AllHashes(line[..n]) && (n < |line| ==> line[n] != '#')
    ensures Hashes(line) == n
  {
    if n > 0 {
      var run, rest := line[..n], line[1..n];
      assert run[0] == line[0] && line[1..][..n - 1] == rest;
      assert forall i :: 0 <= i < |rest| ==> rest[i] == run[i + 1];
      HashesAre(line[1..], n - 1);
    }
  }

  lemma {:induction false} HashesAreHashes(line: string)
    ensures AllHashes(line[..Hashes(line)])
  {
    if line != "" && line[0] == '#' {
      HashesAreHashes(line[1..]);
      var n := Hashes(line[1..]);
      var run, rest := line[..n + 1], line[1..][..n];
      assert forall i :: 1 <= i < |run| ==> run[i] == rest[i - 1];
    }
  }

  /** ... and no other line is a heading. */
  lemma OnlyThatIsAHeading(line: string) returns (hashes: string, gap: string, rest: string)
    requires Title(line).Some?
    ensures HeadingForm(hashes, gap, rest) && line == hashes + gap + rest
  {
    hide IsSpace;
    hide NoLineTerminator;
    var n := Hashes(line);
    var i := SkipSpace(line, n);
    HashesAreHashes(line);
    hashes, gap, rest := line[..n], line[n..i], line[i..];
    assert forall k :: 0 <= k < |gap| ==> gap[k] == line[n + k];
    assert line == hashes + gap + rest;
  }

  /** The heading a paragraph opens with, if any. */
  function HeadOf(start: nat, paragraph: string): (heads: seq<Head>)
    ensures |heads| <= 1
    ensures heads != [] ==> start == heads[0].start < heads[0].end == start + |FirstLine(paragraph)|
  {
    match Title(FirstLine(paragraph))
    case None => []
    case Some(title) => [Head(start, start + |FirstLine(paragraph)|, title)]
  }

  /** Every heading line from `cursor` on: the first line of each blank-line
      separated block, when it reads as a heading. */
  function HeadsFrom(s: string, cursor: nat): seq<Head>
    requires cursor <= |s|
    decreases |s| - cursor
  {
    var end := NextBreak(s, cursor);
    OwnHeads(s, cursor, end) + if end == |s| then [] else HeadsFrom(s, BreakEnd(s, end))
  }

  /** The heading of one block, if it opens with one. */
  function OwnHeads(s: string, cursor: nat, end: nat): seq<Head>
    requires cursor <= end <= |s|
  {
    var raw := s[cursor..end];
    if Trim(raw) == "" then [] else HeadOf(cursor + SkipSpace(raw, 0), Trim(raw))
  }

  // ----- seams

  function FirstSpace(s: string): (i: nat)
    ensures i <= |s|
  {
    if s == "" || IsSpace(s[0]) then 0 else 1 + FirstSpace(s[1..])
  }

  /** The last characters of a chunk, cut forward to a word boundary. */
  function TailOf(text: string): (tail: string)
    ensures |tail| <= CHUNK_OVERLAP
  {
    if |text| <= CHUNK_OVERLAP then text
    else
      var slice := text[|text| - CHUNK_OVERLAP..];
      var i := FirstSpace(slice);
      if i == |slice| then slice else slice[i + 1..]
  }

  lemma {:induction false} FirstSpaceIsSpace(s: string)
    ensures FirstSpace(s) < |s| ==> IsSpace(s[FirstSpace(s)])
  {
    hide IsSpace;
    if s != "" && !IsSpace(s[0]) {
      FirstSpaceIsSpace(s[1..]);
    }
  }

  /** The tail of a chunk is never empty. */
  lemma TailIsNotEmpty(text: string)
    requires Trimmed(text)
    ensures TailOf(text) != ""
  {
    hide IsSpace;
    if |text| > CHUNK_OVERLAP {
      var slice := text[|text| - CHUNK_OVERLAP..];
      FirstSpaceIsSpace(slice);
      assert slice[|slice| - 1] == text[|text| - 1];
    }
  }

  /** What is carried over: the whole of a text of at most 150 characters; of a longer one
      its last 150, from the first white space in them on, or all of them if they
      hold none. */
  lemma TailIsTheEnd(text: string)
    ensures var tail := TailOf(text);
            && |tail| <= |text| && tail == text[|text| - |tail|..]
            && (|text| <= 150 ==> tail == text)
            && (|text| > 150 ==> EndsAtAWord(text[|text| - 150..], tail))
  {
    hide EndsAtAWord;
    hide FirstSpace;
    if |text| > CHUNK_OVERLAP {
      CutEndsAtAWord(text[|text| - 150..]);
      EndOfEnd(text, 150, if FirstSpace(text[|text| - 150..]) < 150 then FirstSpace(text[|text| - 150..]) + 1 else 0);
    }
  }

  lemma EndOfEnd(text: string, n: nat, from: nat)
    requires from <= n <= |text|
    ensures var end := text[|text| - n..][from..];
            |end| == n - from && end == text[|text| - |end|..] && (from == 0 ==> end == text[|text| - n..])
  {
  }

  lemma CutEndsAtAWord(slice: string)
    ensures var i := FirstSpace(slice); EndsAtAWord(slice, if i == |slice| then slice else slice[i + 1..])
  {
    FirstSpaceSplits(slice);
    hide IsSpace;
    hide NoSpace;
    hide FirstSpace;
  }

  /** All of the slice if it holds no white space, and otherwise what follows the first. */
  ghost predicate EndsAtAWord(slice: string, tail: string) {
    && |tail| <= |slice|
    && (NoSpace(slice) ==> tail == slice)
    && (!NoSpace(slice) ==>
          var cut := |slice| - |tail|;
          cut > 0 && IsSpace(slice[cut - 1]) && NoSpace(slice[..cut - 1]))
  }

  lemma FirstSpaceSplits(s: string)
    ensures var i := FirstSpace(s); NoSpace(s[..i]) && if i == |s| then NoSpace(s) else IsSpace(s[i]) && !NoSpace(s)
  {
    FirstSpaceIsSpace(s);
    FirstSpaceIsFirst(s);
    hide FirstSpace;
    hide IsSpace;
    assert s[..|s|] == s;
  }

  lemma {:induction false} FirstSpaceIsFirst(s: string)
    ensures NoSpace(s[..FirstSpace(s)])
  {
    hide IsSpace;
    if s != "" && !IsSpace(s[0]) {
      FirstSpaceIsFirst(s[1..]);
      var n := FirstSpace(s[1..]);
      var run, rest := s[..n + 1], s[1..][..n];
      assert forall i :: 1 <= i < |run| ==> run[i] == rest[i - 1];
    }
  }

  function Seam(overlap: string): string {
    if overlap == "" then "" else SEAM_MARK + overlap + BLANK_LINE
  }

  predicate HeadBetween(heads: seq<Head>, from: nat, to: nat) {
    exists k :: 0 <= k < |heads| && from <= heads[k].start < to
  }

  /** What chunk `i` repeats of the one before it: nothing across a heading. */
  function SeamOf(heads: seq<Head>, chunks: seq<Chunk>, i: nat): string
    requires i < |chunks|
  {
    if i == 0 || HeadBetween(heads, chunks[i - 1].end, chunks[i].start) then ""
    else Seam(TailOf(chunks[i - 1].text))
  }

  /** The title of the last heading that starts before `at`. */
  function TitleAt(heads: seq<Head>, at: nat): string {
    if heads == [] then ""
    else
      var last := heads[|heads| - 1];
      if last.start < at then last.title else TitleAt(heads[..|heads| - 1], at)
  }

  /** It is the title of the nearest heading above, by place in the list ... */
  lemma {:induction false} TitleIsNearest(heads: seq<Head>, at: nat, k: nat)
    requires k < |heads| && heads[k].start < at
    requires forall j :: k < j < |heads| ==> at <= heads[j].start
    ensures TitleAt(heads, at) == heads[k].title
  {
    if k < |heads| - 1 {
      var init := heads[..|heads| - 1];
      assert init[k] == heads[k] && forall j :: k < j < |init| ==> init[j] == heads[j];
      TitleIsNearest(init, at, k);
    }
  }

  /** ... or empty above all headings. */
  lemma {:induction false} NoTitleAbove(heads: seq<Head>, at: nat)
    requires forall j :: 0 <= j < |heads| ==> at <= heads[j].start
    ensures TitleAt(heads, at) == ""
  {
    if heads != [] {
      var init := heads[..|heads| - 1];
      assert forall j :: 0 <= j < |init| ==> init[j] == heads[j];
      NoTitleAbove(init, at);
    }
  }

  /** A chunk whose predecessor lies in its own section opens with an ellipsis, the
      predecessor's tail and a blank line; the first of a section with nothing. */
  lemma SeamIsTheTail(heads: seq<Head>, chunks: seq<Chunk>, i: nat) returns (tail: string)
    requires i < |chunks|
    requires i > 0 ==> Trimmed(chunks[i - 1].text)
    ensures tail == "" <==> i == 0 || (exists k :: 0 <= k < |heads| && chunks[i - 1].end <= heads[k].start < chunks[i].start)
    ensures SeamOf(heads, chunks, i) == if tail == "" then "" else "\U{2026} " + tail + "\n\n"
    ensures tail != "" ==> tail == TailOf(chunks[i - 1].text)
  {
    hide TailOf;
    if i == 0 || HeadBetween(heads, chunks[i - 1].end, chunks[i].start) {
      tail := "";
    } else {
      tail := TailOf(chunks[i - 1].text);
      TailIsNotEmpty(chunks[i - 1].text);
    }
  }

  // ----- the chunk in progress

  datatype Packing = Packing(
    chunks: seq<Chunk>,
    parts: seq<string>,
    length: nat,
    overlap: string,
    chunkStart: nat,
    chunkEnd: nat,
    heading: string,
    headingOfChunk: string)

  const NOTHING := Packing([], [], 0, "", 0, 0, "", "")

  /** `flush`. */
  function Flushed(p: Packing): Packing {
    var text := Trim(Join(p.parts, BLANK_LINE));
    var kept := if text == "" then p else
      p.(chunks := p.chunks + [Chunk(|p.chunks|, p.headingOfChunk, text, p.chunkStart, p.chunkEnd)],
         overlap := TailOf(text));
    kept.(parts := [], length := 0)
  }

  /** A chunk opened at a piece, behind the seam if there is one. */
  function Opened(p: Packing, start: nat): Packing {
    var begun := p.(headingOfChunk := p.heading, chunkStart := start);
    if p.overlap == "" then begun
    else begun.(parts := [SEAM_MARK + p.overlap], length := p.length + |p.overlap| + 4)
  }

  function Added(p: Packing, text: string, end: nat): Packing {
    p.(parts := p.parts + [text], length := p.length + |text| + 2, chunkEnd := end)
  }

  /** `pack`. */
  function Packed(p: Packing, piece: Piece, base: nat): Packing {
    var room := if p.length > 0 && p.length + |piece.text| + 2 > CHUNK_TARGET then Flushed(p) else p;
    var ready := if room.parts == [] then Opened(room, base + piece.start) else room;
    Added(ready, piece.text, base + piece.end)
  }

  /** The heading branch: the chunk in progress ends, and no seam crosses. */
  function Titled(p: Packing, title: string): Packing {
    Flushed(p).(heading := title, overlap := "")
  }

  // ----- spans

  datatype Span = Span(start: nat, end: nat)

  /** The spans of the finished chunks and of the one in progress. */
  function SpansOf(p: Packing): (spans: seq<Span>)
    ensures |spans| == |p.chunks| + if p.parts == [] then 0 else 1
  {
    ChunkSpans(p.chunks) + if p.parts == [] then [] else [Span(p.chunkStart, p.chunkEnd)]
  }

  function ChunkSpans(chunks: seq<Chunk>): (spans: seq<Span>)
    ensures |spans| == |chunks|
  {
    seq(|chunks|, i requires 0 <= i < |chunks| => Span(chunks[i].start, chunks[i].end))
  }

  ghost predicate Ordered(spans: seq<Span>, upto: nat) {
    && (forall i :: 0 <= i < |spans| ==> spans[i].start < spans[i].end <= upto)
    && (forall i, j :: 0 <= i < j < |spans| ==> spans[i].end <= spans[j].start)
  }

  predicate InSpans(spans: seq<Span>, at: nat) {
    exists k :: 0 <= k < |spans| && spans[k].start <= at < spans[k].end
  }

  predicate InHeads(heads: seq<Head>, at: nat) {
    exists k :: 0 <= k < |heads| && heads[k].start <= at < heads[k].end
  }

  /** Up to `upto`, a character that is not white space lies in a span exactly
      when it does not lie in a heading line. */
  ghost predicate Partition(s: string, heads: seq<Head>, spans: seq<Span>, upto: nat) {
    upto <= |s| && forall i: nat :: i < upto && !IsSpace(s[i]) ==> (InSpans(spans, i) <==> !InHeads(heads, i))
  }

  // ----- texts

  const TEXT_MAX := CHUNK_OVERLAP + 4 + CHUNK_MAX

  /** A text is its seam and then what its span holds, up to white space. */
  ghost predicate Holds(s: string, seam: string, text: string, start: nat, end: nat) {
    && start < end <= |s| && seam <= text && Trimmed(text) && |text| <= TEXT_MAX
    && Erase(text[|seam|..]) == Erase(s[start..end])
  }

  ghost predicate Sound(s: string, heads: seq<Head>, chunks: seq<Chunk>, i: nat)
    requires i < |chunks|
  {
    var c := chunks[i];
    && c.number == i
    && c.heading == TitleAt(heads, c.start)
    && Holds(s, SeamOf(heads, chunks, i), c.text, c.start, c.end)
  }

  ghost predicate AllSound(s: string, heads: seq<Head>, chunks: seq<Chunk>) {
    forall i :: 0 <= i < |chunks| ==> Sound(s, heads, chunks, i)
  }

  /** A text without its seam. */
  function OwnText(seam: string, text: string): string {
    if |seam| <= |text| then text[|seam|..] else ""
  }

  /** How long the first piece of a text is: pieces hold no blank line and are set
      apart by one. */
  function FirstPiece(own: string): nat {
    NextBreak(own, 0)
  }

  /** A chunk that carries a seam started only because its first piece had no room in
      the chunk before it. */
  ghost predicate FilledAt(heads: seq<Head>, chunks: seq<Chunk>, i: nat)
    requires i < |chunks|
  {
    i > 0 && SeamOf(heads, chunks, i) != "" ==>
      NoRoom(chunks[i - 1].text, OwnText(SeamOf(heads, chunks, i), chunks[i].text))
  }

  predicate NoRoom(before: string, own: string) {
    |before| + FirstPiece(own) + 4 > CHUNK_TARGET
  }

  ghost predicate AllFilled(heads: seq<Head>, chunks: seq<Chunk>) {
    forall i :: 0 <= i < |chunks| ==> FilledAt(heads, chunks, i)
  }

  /** What a document's chunks promise. */
  ghost predicate WellChunked(s: string, heads: seq<Head>, chunks: seq<Chunk>) {
    && Ordered(ChunkSpans(chunks), |s|)
    && Partition(s, heads, ChunkSpans(chunks), |s|)
    && AllSound(s, heads, chunks)
    && AllFilled(heads, chunks)
  }

  // ----- the invariant of the pass

  ghost predicate HeadsEndBy(heads: seq<Head>, at: nat) {
    forall k :: 0 <= k < |heads| ==> heads[k].start < heads[k].end <= at
  }

  function LastTitle(heads: seq<Head>): string {
    if heads == [] then "" else heads[|heads| - 1].title
  }

  /** The tail to carry over: of the last chunk, unless a heading follows it. */
  function Carried(heads: seq<Head>, chunks: seq<Chunk>, upto: nat): string {
    if chunks == [] || HeadBetween(heads, chunks[|chunks| - 1].end, upto) then ""
    else TailOf(chunks[|chunks| - 1].text)
  }

  /** The chunk in progress. */
  ghost predicate OpenSound(s: string, heads: seq<Head>, p: Packing, upto: nat) {
    var text := Join(p.parts, BLANK_LINE);
    && p.length == |text| + 2
    && Holds(s, Seam(p.overlap), text, p.chunkStart, p.chunkEnd)
    && Gap(s, p.chunkEnd, upto)
    && HeadsEndBy(heads, p.chunkStart)
    && p.overlap == Carried(heads, p.chunks, p.chunkStart)
    && p.headingOfChunk == p.heading
  }

  ghost predicate ClosedSound(heads: seq<Head>, p: Packing, upto: nat) {
    p.length == 0 && HeadsEndBy(heads, upto) && p.overlap == Carried(heads, p.chunks, upto)
  }

  ghost predicate PassInv(s: string, heads: seq<Head>, p: Packing, upto: nat) {
    && Ordered(SpansOf(p), upto)
    && Partition(s, heads, SpansOf(p), upto)
    && AllSound(s, heads, p.chunks)
    && p.heading == LastTitle(heads)
    && if p.parts == [] then ClosedSound(heads, p, upto) else OpenSound(s, heads, p, upto)
  }

  lemma {:induction false} LatestTitle(heads: seq<Head>, at: nat)
    requires HeadsEndBy(heads, at)
    ensures TitleAt(heads, at) == LastTitle(heads)
  {
  }

  lemma FlushKeeps(s: string, heads: seq<Head>, p: Packing, upto: nat)
    requires PassInv(s, heads, p, upto)
    ensures PassInv(s, heads, Flushed(p), upto) && Flushed(p).parts == []
    ensures SpansOf(Flushed(p)) == SpansOf(p)
  {
    hide IsSpace;
    hide Erase;
    if p.parts == [] {
      EmptyTrims();
    } else {
      var text := Join(p.parts, BLANK_LINE);
      TrimOfTrimmed(text);
      var q := Flushed(p);
      var n := |p.chunks|;
      assert q.chunks == p.chunks + [Chunk(n, p.headingOfChunk, text, p.chunkStart, p.chunkEnd)];
      assert SpansOf(q) == SpansOf(p);
      LatestTitle(heads, p.chunkStart);
      FlushedTextsAreSound(s, heads, p, text);
      FlushedIsClosed(heads, p, text, upto);
    }
  }

  lemma EmptyTrims()
    ensures Trim(Join([], BLANK_LINE)) == ""
  {
  }

  lemma FlushedTextsAreSound(s: string, heads: seq<Head>, p: Packing, text: string)
    requires AllSound(s, heads, p.chunks)
    requires Holds(s, Seam(p.overlap), text, p.chunkStart, p.chunkEnd)
    requires p.overlap == Carried(heads, p.chunks, p.chunkStart)
    requires p.headingOfChunk == TitleAt(heads, p.chunkStart)
    ensures AllSound(s, heads, p.chunks + [Chunk(|p.chunks|, p.headingOfChunk, text, p.chunkStart, p.chunkEnd)])
  {
    hide Holds;
    hide TitleAt;
    hide HeadBetween;
    var n, c := |p.chunks|, Chunk(|p.chunks|, p.headingOfChunk, text, p.chunkStart, p.chunkEnd);
    var chunks := p.chunks + [c];
    SeamsAfterFlush(heads, p, c);
    hide SeamOf;
    forall i | 0 <= i < |chunks| ensures Sound(s, heads, chunks, i) {
      if i < n {
        assert Sound(s, heads, p.chunks, i);
      }
    }
  }

  lemma SeamsAfterFlush(heads: seq<Head>, p: Packing, c: Chunk)
    requires p.overlap == Carried(heads, p.chunks, c.start)
    ensures forall i :: 0 <= i < |p.chunks| ==> SeamOf(heads, p.chunks + [c], i) == SeamOf(heads, p.chunks, i)
    ensures SeamOf(heads, p.chunks + [c], |p.chunks|) == Seam(p.overlap)
  {
    hide HeadBetween;
    hide Seam;
    hide TailOf;
    assert Seam("") == "" by { SeamOfNothing(); }
    var chunks := p.chunks + [c];
    assert forall i :: 0 <= i < |p.chunks| ==> chunks[i] == p.chunks[i];
  }

  lemma SeamOfNothing()
    ensures Seam("") == ""
  {
  }

  lemma FlushedIsClosed(heads: seq<Head>, p: Packing, text: string, upto: nat)
    requires HeadsEndBy(heads, p.chunkStart) && p.chunkStart < p.chunkEnd <= upto
    ensures HeadsEndBy(heads, upto)
    ensures !HeadBetween(heads, p.chunkEnd, upto)
  {
  }

  // ----- moving on

  lemma MoveOn(s: string, heads: seq<Head>, p: Packing, upto: nat, next: nat)
    requires PassInv(s, heads, p, upto) && Gap(s, upto, next)
    ensures PassInv(s, heads, p, next)
  {
    hide Holds;
    hide InSpans;
    hide InHeads;
    if p.parts == [] {
      SameCarried(heads, p.chunks, upto, next);
    }
  }

  lemma SameCarried(heads: seq<Head>, chunks: seq<Chunk>, upto: nat, next: nat)
    requires HeadsEndBy(heads, upto) && upto <= next
    ensures Carried(heads, chunks, upto) == Carried(heads, chunks, next)
    ensures HeadsEndBy(heads, next)
  {
  }

  /** A heading line ends the chunk in progress and starts a section. */
  lemma TitleKeeps(s: string, heads: seq<Head>, p: Packing, upto: nat, head: Head)
    requires PassInv(s, heads, p, upto) && upto == head.start < head.end <= |s|
    ensures PassInv(s, heads + [head], Titled(p, head.title), head.end)
  {
    FlushKeeps(s, heads, p, upto);
    var flushed, q, all := Flushed(p), Titled(p, head.title), heads + [head];
    TitledIs(p, head.title);
    hide Flushed;
    hide Titled;
    assert ChunkSpans(q.chunks) == SpansOf(flushed) == SpansOf(q);
    PartitionPastHead(s, heads, SpansOf(q), upto, head);
    SoundPastHead(s, heads, q.chunks, upto, head);
    CarriesNothing(heads, q.chunks, upto, head);
    hide Ordered;
    hide Partition;
    hide AllSound;
    hide Carried;
    hide SpansOf;
    hide OpenSound;
  }

  lemma TitledIs(p: Packing, title: string)
    ensures Titled(p, title) == Flushed(p).(heading := title, overlap := "") && Flushed(p).parts == []
  {
    hide Trim;
    hide Join;
    hide TailOf;
  }

  lemma CarriesNothing(heads: seq<Head>, chunks: seq<Chunk>, upto: nat, head: Head)
    requires Ordered(ChunkSpans(chunks), upto) && upto == head.start < head.end && HeadsEndBy(heads, upto)
    ensures Carried(heads + [head], chunks, head.end) == ""
    ensures HeadsEndBy(heads + [head], head.end) && LastTitle(heads + [head]) == head.title
  {
    hide TailOf;
    var all := heads + [head];
    assert all[|heads|] == head;
    if chunks != [] {
      assert ChunkSpans(chunks)[|chunks| - 1].end <= upto;
      assert HeadBetween(all, chunks[|chunks| - 1].end, head.end);
    }
  }

  lemma PartitionPastHead(s: string, heads: seq<Head>, spans: seq<Span>, upto: nat, head: Head)
    requires Partition(s, heads, spans, upto) && Ordered(spans, upto) && upto == head.start < head.end <= |s|
    ensures Partition(s, heads + [head], spans, head.end) && Ordered(spans, head.end)
  {
    var all := heads + [head];
    forall i: nat | i < head.end && !IsSpace(s[i]) ensures InSpans(spans, i) <==> !InHeads(all, i) {
      if i < upto {
        assert InHeads(heads, i) <==> InHeads(all, i) by {
          if InHeads(all, i) {
            var k :| 0 <= k < |all| && all[k].start <= i < all[k].end;
            assert heads[k] == all[k];
          }
          if InHeads(heads, i) {
            var k :| 0 <= k < |heads| && heads[k].start <= i < heads[k].end;
            assert heads[k] == all[k];
          }
        }
      } else {
        assert all[|heads|] == head;
      }
    }
  }

  lemma SoundPastHead(s: string, heads: seq<Head>, chunks: seq<Chunk>, upto: nat, head: Head)
    requires AllSound(s, heads, chunks) && Ordered(ChunkSpans(chunks), upto) && upto == head.start
    ensures AllSound(s, heads + [head], chunks)
  {
    var all := heads + [head];
    hide Holds;
    forall i | 0 <= i < |chunks| ensures Sound(s, all, chunks, i) {
      assert Sound(s, heads, chunks, i);
      assert ChunkSpans(chunks)[i].end <= upto;
      assert all[..|heads|] == heads;
      assert TitleAt(all, chunks[i].start) == TitleAt(heads, chunks[i].start);
      SeamPastHead(heads, chunks, upto, head, i);
    }
  }

  lemma SeamPastHead(heads: seq<Head>, chunks: seq<Chunk>, upto: nat, head: Head, i: nat)
    requires Ordered(ChunkSpans(chunks), upto) && upto == head.start && i < |chunks|
    ensures SeamOf(heads + [head], chunks, i) == SeamOf(heads, chunks, i)
  {
    assert ChunkSpans(chunks)[i].end <= upto;
    if i > 0 {
      SameBetween(heads, head, chunks[i - 1].end, chunks[i].start);
    }
  }

  lemma SameBetween(heads: seq<Head>, head: Head, from: nat, to: nat)
    requires to <= head.start
    ensures HeadBetween(heads + [head], from, to) <==> HeadBetween(heads, from, to)
  {
    var all := heads + [head];
    if HeadBetween(all, from, to) {
      var k :| 0 <= k < |all| && from <= all[k].start < to;
      assert heads[k] == all[k];
    }
    if HeadBetween(heads, from, to) {
      var k :| 0 <= k < |heads| && from <= heads[k].start < to;
      assert heads[k] == all[k];
    }
  }

  // ----- packing a piece

  lemma {:induction false} JoinLast(parts: seq<string>, text: string)
    requires parts != []
    ensures Join(parts + [text], BLANK_LINE) == Join(parts, BLANK_LINE) + BLANK_LINE + text
  {
    var all := parts + [text];
    if |parts| == 1 {
      assert all[1..] == [text];
    } else {
      assert all[1..] == parts[1..] + [text];
      JoinLast(parts[1..], text);
      var first, rest := parts[0], Join(parts[1..], BLANK_LINE);
      assert first + BLANK_LINE + (rest + BLANK_LINE + text) == first + BLANK_LINE + rest + BLANK_LINE + text;
    }
  }

  lemma BlankLineErases()
    ensures Erase(BLANK_LINE) == "" && |BLANK_LINE| == 2 && |SEAM_MARK| == 2
    ensures !IsSpace(SEAM_MARK[0])
  {
    EraseOfSpaces(BLANK_LINE);
  }

  /** Growing the text and the span of a chunk by one piece. */
  lemma HoldsMore(s: string, seam: string, text: string, start: nat, end: nat, piece: Piece)
    requires Holds(s, seam, text, start, end)
    requires Faithful(s, piece) && Gap(s, end, piece.start)
    requires |text| + 2 + |piece.text| <= TEXT_MAX
    ensures Holds(s, seam, text + BLANK_LINE + piece.text, start, piece.end)
  {
    hide IsSpace;
    hide Erase;
    var tail := BLANK_LINE + piece.text;
    BlankLineErases();
    EraseOfConcat(text[|seam|..], tail);
    EraseOfConcat(BLANK_LINE, piece.text);
    EraseAcrossGap(s, start, end, piece.start, piece.end);
    AppendedText(seam, text, tail);
    assert text + BLANK_LINE + piece.text == text + tail;
    assert tail[|tail| - 1] == piece.text[|piece.text| - 1];
  }

  lemma AppendedText(seam: string, text: string, tail: string)
    requires seam <= text && text != "" && tail != ""
    ensures var grown := text + tail;
            && seam <= grown && grown[|seam|..] == text[|seam|..] + tail
            && grown[0] == text[0] && grown[|grown| - 1] == tail[|tail| - 1]
  {
    assert (text + tail)[..|seam|] == text[..|seam|];
  }

  /** The first piece of a chunk, behind its seam. */
  lemma HoldsFirst(s: string, overlap: string, piece: Piece)
    requires Faithful(s, piece) && Short(piece) && |overlap| <= CHUNK_OVERLAP
    ensures Holds(s, Seam(overlap), Seam(overlap) + piece.text, piece.start, piece.end)
  {
    hide IsSpace;
    hide Erase;
    BlankLineErases();
    var seam := Seam(overlap);
    var text := seam + piece.text;
    assert text[|seam|..] == piece.text && text[..|seam|] == seam;
    assert text[|text| - 1] == piece.text[|piece.text| - 1];
    assert overlap != "" ==> text[0] == SEAM_MARK[0];
  }

  /** Extending the last span over a piece. */
  lemma PartitionGrows(s: string, heads: seq<Head>, spans: seq<Span>, upto: nat, last: Span, end: nat, piece: Piece)
    requires Partition(s, heads, spans + [last], upto) && Ordered(spans + [last], upto)
    requires HeadsEndBy(heads, last.start) && Gap(s, upto, piece.start) && Inside(s, piece) && end == piece.end
    requires Gap(s, last.end, upto)
    ensures Partition(s, heads, spans + [Span(last.start, end)], end) && Ordered(spans + [Span(last.start, end)], end)
  {
    hide IsSpace;
    var before, after := spans + [last], spans + [Span(last.start, end)];
    assert forall k :: 0 <= k < |spans| ==> before[k] == after[k];
    assert before[|spans|] == last && after[|spans|] == Span(last.start, end);
    forall i: nat | i < end && !IsSpace(s[i]) ensures InSpans(after, i) <==> !InHeads(heads, i) {
      if last.start <= i {
        assert after[|spans|].start <= i < after[|spans|].end;
        assert !InHeads(heads, i);
      } else {
        SameInSpans(spans, last, Span(last.start, end), i);
      }
    }
  }

  lemma SameInSpans(spans: seq<Span>, a: Span, b: Span, i: nat)
    requires i < a.start && i < b.start
    ensures InSpans(spans + [a], i) <==> InSpans(spans + [b], i)
  {
    var x, y := spans + [a], spans + [b];
    if InSpans(x, i) {
      var k :| 0 <= k < |x| && x[k].start <= i < x[k].end;
      assert y[k] == x[k];
    }
    if InSpans(y, i) {
      var k :| 0 <= k < |y| && y[k].start <= i < y[k].end;
      assert x[k] == y[k];
    }
  }

  /** A new span over a piece. */
  lemma PartitionOpens(s: string, heads: seq<Head>, spans: seq<Span>, upto: nat, piece: Piece)
    requires Partition(s, heads, spans, upto) && Ordered(spans, upto)
    requires HeadsEndBy(heads, upto) && Gap(s, upto, piece.start) && Inside(s, piece)
    ensures Partition(s, heads, spans + [Span(piece.start, piece.end)], piece.end)
    ensures Ordered(spans + [Span(piece.start, piece.end)], piece.end)
  {
    hide IsSpace;
    var after := spans + [Span(piece.start, piece.end)];
    assert after[|spans|] == Span(piece.start, piece.end);
    forall i: nat | i < piece.end && !IsSpace(s[i]) ensures InSpans(after, i) <==> !InHeads(heads, i) {
      if piece.start <= i {
        assert InSpans(after, i);
        assert !InHeads(heads, i);
      } else {
        assert i < upto;
        if InSpans(after, i) {
          var k :| 0 <= k < |after| && after[k].start <= i < after[k].end;
          assert spans[k] == after[k];
        }
        if InSpans(spans, i) {
          var k :| 0 <= k < |spans| && spans[k].start <= i < spans[k].end;
          assert spans[k] == after[k];
        }
      }
    }
  }

  /** One more piece in the chunk in progress. */
  lemma AddKeeps(s: string, heads: seq<Head>, p: Packing, upto: nat, piece: Piece)
    requires PassInv(s, heads, p, upto) && p.parts != []
    requires Gap(s, upto, piece.start) && Faithful(s, piece)
    requires p.length + |piece.text| + 2 <= CHUNK_TARGET
    ensures PassInv(s, heads, Added(p, piece.text, piece.end), piece.end)
  {
    var q := Added(p, piece.text, piece.end);
    var text := Join(p.parts, BLANK_LINE);
    JoinLast(p.parts, piece.text);
    BlankLineErases();
    GapJoins(s, p.chunkEnd, upto, piece.start);
    HoldsMore(s, Seam(p.overlap), text, p.chunkStart, p.chunkEnd, piece);
    var closed := ChunkSpans(p.chunks);
    assert SpansOf(p) == closed + [Span(p.chunkStart, p.chunkEnd)];
    assert SpansOf(q) == closed + [Span(p.chunkStart, piece.end)];
    PartitionGrows(s, heads, closed, upto, Span(p.chunkStart, p.chunkEnd), piece.end, piece);
    hide Holds;
    hide Faithful;
    hide Partition;
    hide Ordered;
    hide Join;
    hide SpansOf;
    hide AllSound;
    hide Carried;
    assert Gap(s, piece.end, piece.end);
  }

  lemma GapJoins(s: string, from: int, mid: int, to: int)
    requires Gap(s, from, mid) && Gap(s, mid, to)
    ensures Gap(s, from, to)
  {
  }

  /** The first piece of a new chunk. */
  lemma OpenKeeps(s: string, heads: seq<Head>, p: Packing, upto: nat, piece: Piece)
    requires PassInv(s, heads, p, upto) && p.parts == []
    requires Gap(s, upto, piece.start) && Faithful(s, piece) && Short(piece)
    ensures PassInv(s, heads, Added(Opened(p, piece.start), piece.text, piece.end), piece.end)
  {
    var q := Added(Opened(p, piece.start), piece.text, piece.end);
    BlankLineErases();
    SameCarried(heads, p.chunks, upto, piece.start);
    HoldsFirst(s, p.overlap, piece);
    OpenedText(p, piece);
    assert SpansOf(q) == SpansOf(p) + [Span(piece.start, piece.end)];
    PartitionOpens(s, heads, SpansOf(p), upto, piece);
    hide Holds;
    hide Faithful;
    hide Partition;
    hide Ordered;
    hide Join;
    hide SpansOf;
    hide AllSound;
    hide Carried;
    assert Gap(s, piece.end, piece.end);
  }

  lemma OpenedText(p: Packing, piece: Piece)
    requires p.parts == [] && p.length == 0
    ensures var q := Added(Opened(p, piece.start), piece.text, piece.end);
            q.parts != [] && Join(q.parts, BLANK_LINE) == Seam(p.overlap) + piece.text
            && q.length == |Seam(p.overlap)| + |piece.text| + 2
  {
    var q := Added(Opened(p, piece.start), piece.text, piece.end);
    if p.overlap == "" {
      assert q.parts == [piece.text];
    } else {
      assert q.parts == [SEAM_MARK + p.overlap] + [piece.text];
      JoinLast([SEAM_MARK + p.overlap], piece.text);
    }
  }

  lemma PackedIs(p: Packing, piece: Piece, base: nat)
    requires p.length > 0 <==> p.parts != []
    ensures var start, end := base + piece.start, base + piece.end;
            Packed(p, piece, base) ==
            if p.parts == [] then Added(Opened(p, start), piece.text, end)
            else if p.length + |piece.text| + 2 <= CHUNK_TARGET then Added(p, piece.text, end)
            else Added(Opened(Flushed(p), start), piece.text, end)
  {
    hide Opened;
    hide Added;
    hide Trim;
    hide Join;
  }

  lemma LengthTellsOpen(s: string, heads: seq<Head>, p: Packing, upto: nat)
    requires PassInv(s, heads, p, upto)
    ensures p.length > 0 <==> p.parts != []
  {
    hide Ordered;
    hide Partition;
    hide AllSound;
    hide Holds;
    hide Join;
  }

  /** `pack` keeps the pass sound and moves it past the piece. */
  lemma PackKeeps(s: string, heads: seq<Head>, p: Packing, upto: nat, piece: Piece, base: nat)
    requires PassInv(s, heads, p, upto)
    requires Gap(s, upto, base + piece.start) && Faithful(s, Shift(piece, base)) && Short(piece)
    ensures PassInv(s, heads, Packed(p, piece, base), base + piece.end)
  {
    hide PassInv;
    hide Packed;
    hide Opened;
    hide Added;
    hide Flushed;
    hide Faithful;
    hide Gap;
    var moved := Shift(piece, base);
    LengthTellsOpen(s, heads, p, upto);
    PackedIs(p, piece, base);
    if p.length > 0 && p.length + |piece.text| + 2 > CHUNK_TARGET {
      FlushKeeps(s, heads, p, upto);
      OpenKeeps(s, heads, Flushed(p), upto, moved);
    } else if p.parts == [] {
      OpenKeeps(s, heads, p, upto, moved);
    } else {
      AddKeeps(s, heads, p, upto, moved);
    }
  }

  // ----- chunks are filled

  /** Finished chunks are filled, and so is the one in progress beside its predecessor. */
  ghost predicate Full(heads: seq<Head>, p: Packing) {
    && AllFilled(heads, p.chunks)
    && (p.parts == [] ==> p.overlap == "")
    && (p.overlap != "" ==> p.chunks != [])
    && (p.overlap != "" ==>
          NoRoom(p.chunks[|p.chunks| - 1].text, OwnText(Seam(p.overlap), Join(p.parts, BLANK_LINE))))
  }

  /** The whole invariant. */
  ghost predicate InProgress(s: string, heads: seq<Head>, p: Packing, upto: nat) {
    PassInv(s, heads, p, upto) && Full(heads, p)
  }

  lemma FlushFills(s: string, heads: seq<Head>, p: Packing, upto: nat)
    requires InProgress(s, heads, p, upto)
    ensures AllFilled(heads, Flushed(p).chunks)
  {
    if p.parts == [] {
      EmptyTrims();
    } else {
      var text := Join(p.parts, BLANK_LINE);
      var c := Chunk(|p.chunks|, p.headingOfChunk, text, p.chunkStart, p.chunkEnd);
      FlushAppends(s, heads, p, upto);
      LastIsFilled(heads, p, c);
    }
  }

  lemma FlushAppends(s: string, heads: seq<Head>, p: Packing, upto: nat)
    requires PassInv(s, heads, p, upto) && p.parts != []
    ensures var text := Join(p.parts, BLANK_LINE);
            Flushed(p).chunks == p.chunks + [Chunk(|p.chunks|, p.headingOfChunk, text, p.chunkStart, p.chunkEnd)]
    ensures p.overlap == Carried(heads, p.chunks, p.chunkStart)
  {
    hide IsSpace;
    hide Erase;
    hide Ordered;
    hide Partition;
    hide AllSound;
    TrimOfTrimmed(Join(p.parts, BLANK_LINE));
    hide Join;
  }

  lemma LastIsFilled(heads: seq<Head>, p: Packing, c: Chunk)
    requires Full(heads, p) && p.overlap == Carried(heads, p.chunks, c.start)
    requires c.text == Join(p.parts, BLANK_LINE)
    ensures AllFilled(heads, p.chunks + [c])
  {
    hide NoRoom;
    hide OwnText;
    hide SeamOf;
    hide Seam;
    hide Join;
    hide Carried;
    hide HeadBetween;
    SeamsAfterFlush(heads, p, c);
    SeamOfNothing();
    var chunks := p.chunks + [c];
    forall i | 0 <= i < |chunks| ensures FilledAt(heads, chunks, i) {
      if i < |p.chunks| {
        assert FilledAt(heads, p.chunks, i);
      } else if i > 0 && p.overlap != "" {
        assert chunks[i - 1] == p.chunks[|p.chunks| - 1] && chunks[i] == c;
      }
    }
  }

  /** What follows a blank line does not change the first piece. */
  lemma FirstPieceStays(own: string, tail: string)
    requires own != "" && own[|own| - 1] != '\n'
    ensures FirstPiece(own + BLANK_LINE + tail) == FirstPiece(own)
  {
    var all, i := own + BLANK_LINE + tail, FirstPiece(own);
    assert forall k :: 0 <= k < |own| ==> all[k] == own[k];
    assert all[|own|] == '\n' == all[|own| + 1];
    assert all[i] == '\n' == all[i + 1];
    assert forall k :: 0 <= k < i ==> !(all[k] == '\n' && all[k + 1] == '\n');
  }

  lemma WholePiece(text: string)
    requires Unbroken(text)
    ensures FirstPiece(text) == |text|
  {
  }

  lemma OwnOfSeam(seam: string, text: string)
    ensures OwnText(seam, seam + text) == text
  {
  }

  /** Behind a seam there is text of the chunk's own, and it does not end in white space. */
  lemma OwnIsThere(s: string, overlap: string, text: string, start: nat, end: nat)
    requires Holds(s, Seam(overlap), text, start, end) && overlap != ""
    ensures var own := OwnText(Seam(overlap), text);
            own != "" && own[|own| - 1] != '\n' && text == Seam(overlap) + own
  {
    hide Erase;
    var seam := Seam(overlap);
    assert seam[|seam| - 1] == '\n';
    assert text[..|seam|] == seam;
  }

  lemma PackFills(s: string, heads: seq<Head>, p: Packing, upto: nat, piece: Piece, base: nat)
    requires InProgress(s, heads, p, upto) && Unbroken(piece.text)
    ensures Full(heads, Packed(p, piece, base))
  {
    hide IsSpace;
    hide Erase;
    hide FilledAt;
    hide Unbroken;
    hide FirstPiece;
    var text := Join(p.parts, BLANK_LINE);
    WholePiece(piece.text);
    if p.length > 0 && p.length + |piece.text| + 2 > CHUNK_TARGET {
      FlushFills(s, heads, p, upto);
      TrimOfTrimmed(text);
      OpenedText(Flushed(p), Shift(piece, base));
      OwnOfSeam(Seam(Flushed(p).overlap), piece.text);
    } else if p.parts != [] {
      JoinLast(p.parts, piece.text);
      if p.overlap != "" {
        GrowsFull(s, p.overlap, text, p.chunkStart, p.chunkEnd, piece.text);
      }
    }
  }

  lemma GrowsFull(s: string, overlap: string, text: string, start: nat, end: nat, tail: string)
    requires Holds(s, Seam(overlap), text, start, end) && overlap != ""
    ensures FirstPiece(OwnText(Seam(overlap), text + BLANK_LINE + tail)) == FirstPiece(OwnText(Seam(overlap), text))
  {
    var seam := Seam(overlap);
    var own := OwnText(seam, text);
    OwnIsThere(s, overlap, text, start, end);
    hide Holds;
    hide Seam;
    assert text + BLANK_LINE + tail == seam + (own + BLANK_LINE + tail);
    OwnOfSeam(seam, own + BLANK_LINE + tail);
    FirstPieceStays(own, tail);
  }

  lemma TitleFills(s: string, heads: seq<Head>, p: Packing, upto: nat, head: Head)
    requires InProgress(s, heads, p, upto) && upto == head.start
    ensures Full(heads + [head], Titled(p, head.title))
  {
    FlushKeeps(s, heads, p, upto);
    FlushFills(s, heads, p, upto);
    var chunks := Flushed(p).chunks;
    assert ChunkSpans(chunks) == SpansOf(Flushed(p));
    forall i | 0 <= i < |chunks| ensures FilledAt(heads + [head], chunks, i) {
      assert FilledAt(heads, chunks, i);
      SeamPastHead(heads, chunks, upto, head, i);
    }
  }

  lemma MovesOn(s: string, heads: seq<Head>, p: Packing, upto: nat, next: nat)
    requires InProgress(s, heads, p, upto) && Gap(s, upto, next)
    ensures InProgress(s, heads, p, next)
  {
    hide Full;
    MoveOn(s, heads, p, upto, next);
  }

  lemma Packs(s: string, heads: seq<Head>, p: Packing, upto: nat, piece: Piece, base: nat)
    requires InProgress(s, heads, p, upto)
    requires Gap(s, upto, base + piece.start) && Faithful(s, Shift(piece, base)) && Short(piece) && Unbroken(piece.text)
    ensures InProgress(s, heads, Packed(p, piece, base), base + piece.end)
  {
    PackFills(s, heads, p, upto, piece, base);
    hide Full;
    PackKeeps(s, heads, p, upto, piece, base);
  }

  lemma StartsSection(s: string, heads: seq<Head>, p: Packing, upto: nat, head: Head)
    requires InProgress(s, heads, p, upto) && upto == head.start < head.end <= |s|
    ensures InProgress(s, heads + [head], Titled(p, head.title), head.end)
  {
    TitleFills(s, heads, p, upto, head);
    hide Full;
    TitleKeeps(s, heads, p, upto, head);
  }

  /** What lies before the next break holds no blank line. */
  lemma BlockIsUnbroken(s: string, cursor: nat)
    requires cursor <= |s|
    ensures Unbroken(s[cursor..NextBreak(s, cursor)])
  {
    var raw := s[cursor..NextBreak(s, cursor)];
    forall i | 0 <= i < |raw| - 1 ensures !(raw[i] == '\n' && raw[i + 1] == '\n') {
      assert raw[i] == s[cursor + i] && raw[i + 1] == s[cursor + i + 1];
    }
  }

  lemma TrimIsUnbroken(raw: string)
    requires Unbroken(raw)
    ensures Unbroken(Trim(raw))
  {
    var i := SkipSpace(raw, 0);
    SliceIsUnbroken(raw, i, BackSpace(raw, i, |raw|));
  }

  // ----- the procedure

  class ChunkPacker {
    var chunks: seq<Chunk>
    var parts: seq<string>
    var length: nat
    var overlap: string
    var chunkStart: nat
    var chunkEnd: nat
    var heading: string
    var headingOfChunk: string

    ghost function State(): Packing
      reads this
    {
      Packing(chunks, parts, length, overlap, chunkStart, chunkEnd, heading, headingOfChunk)
    }

    constructor ()
      ensures State() == NOTHING
    {
      chunks, parts, length, overlap := [], [], 0, "";
      chunkStart, chunkEnd, heading, headingOfChunk := 0, 0, "", "";
    }

    method Flush()
      modifies this
      ensures State() == Flushed(old(State()))
    {
      var text := Trim(Join(parts, BLANK_LINE));
      if |text| > 0 {
        chunks := chunks + [Chunk(|chunks|, headingOfChunk, text, chunkStart, chunkEnd)];
        overlap := TailOf(text);
      }
      parts := [];
      length := 0;
    }

    method Pack(piece: Piece, base: nat)
      modifies this
      ensures State() == Packed(old(State()), piece, base)
    {
      if length > 0 && length + |piece.text| + 2 > CHUNK_TARGET {
        Flush();
      }
      if |parts| == 0 {
        headingOfChunk := heading;
        chunkStart := base + piece.start;
        if overlap != "" {
          parts := parts + [SEAM_MARK + overlap];
          length := length + |overlap| + 4;
        }
      }
      parts := parts + [piece.text];
      length := length + |piece.text| + 2;
      chunkEnd := base + piece.end;
    }

    /** The pieces of one paragraph, in turn. */
    method PackAll(pieces: seq<Piece>, base: nat, ghost s: string, ghost heads: seq<Head>, ghost upto: nat, ghost end: nat)
      requires InProgress(s, heads, State(), upto) && Gap(s, upto, base)
      requires Covers(s, base, ShiftAll(pieces, base), end) && AllShort(pieces) && AllUnbroken(pieces)
      modifies this
      ensures InProgress(s, heads, State(), end)
    {
      hide InProgress;
      hide Covers;
      hide Packed;
      hide Faithful;
      MovesOn(s, heads, State(), upto, base);
      ghost var at: nat := base;
      ghost var moved := ShiftAll(pieces, base);
      assert moved[0..] == moved;
      for k := 0 to |pieces|
        invariant InProgress(s, heads, State(), at)
        invariant Covers(s, at, moved[k..], end)
      {
        CoversNext(s, at, moved, k, end);
        Packs(s, heads, State(), at, pieces[k], base);
        Pack(pieces[k], base);
        at := moved[k].end;
      }
      CoversNothing(s, at, moved[|pieces|..], end);
      MovesOn(s, heads, State(), at, end);
    }

    /** The heading branch of the loop. */
    method StartSection(title: string)
      modifies this
      ensures State() == Titled(old(State()), title)
    {
      Flush();
      heading := title;
      overlap := "";
    }

    /** One trimmed paragraph of the document, at its offset. */
    method AddParagraph(paragraph: string, start: nat, ghost s: string, ghost heads: seq<Head>)
      requires Trimmed(paragraph) && start + |paragraph| <= |s| && paragraph == s[start..start + |paragraph|]
      requires InProgress(s, heads, State(), start) && Unbroken(paragraph)
      modifies this
      ensures InProgress(s, heads + HeadOf(start, paragraph), State(), start + |paragraph|)
    {
      hide InProgress;
      hide Covers;
      hide Flushed;
      hide Trim;
      hide FirstLine;
      hide Title;
      hide IsSpace;
      ghost var end := start + |paragraph|;
      var line := FirstLine(paragraph);
      match Title(line)
      case Some(title) =>
        StartSection(title);
        ghost var head := Head(start, start + |line|, title);
        assert HeadOf(start, paragraph) == [head] && |line| <= |paragraph|;
        StartsSection(s, heads, old(State()), start, head);
        AddRest(paragraph, |line|, start, s, heads + [head]);
      case None =>
        var pieces, _ := SplitLong(paragraph);
        CoversUnbroken(paragraph, 0, pieces, |paragraph|);
        CoversShift(s, start, end, 0, pieces, |paragraph|);
        PackAll(pieces, start, s, heads, start, end);
        assert heads + [] == heads;
    }

    /** One blank-line separated block: `content[cursor..end]`. */
    method AddBlock(content: string, cursor: nat, end: nat, ghost heads: seq<Head>) returns (ghost all: seq<Head>)
      requires cursor <= end <= |content| && InProgress(content, heads, State(), cursor)
      requires Unbroken(content[cursor..end])
      modifies this
      ensures all == heads + OwnHeads(content, cursor, end) && InProgress(content, all, State(), end)
    {
      hide InProgress;
      hide Trim;
      hide IsSpace;
      hide Gap;
      hide HeadOf;
      var raw := content[cursor..end];
      var paragraph := Trim(raw);
      var start := cursor + SkipSpace(raw, 0);
      TrimInPlace(content, cursor, end);
      if |paragraph| > 0 {
        MovesOn(content, heads, State(), cursor, start);
        TrimIsUnbroken(raw);
        AddParagraph(paragraph, start, content, heads);
        all := heads + HeadOf(start, paragraph);
        MovesOn(content, all, State(), start + |paragraph|, end);
      } else {
        all := heads + [];
        GapJoins(content, cursor, start, end);
        MovesOn(content, heads, State(), cursor, end);
        assert all == heads;
      }
    }

    /** One round of the loop: the block at `cursor` and the break after it. */
    method AddNext(content: string, cursor: nat, ghost heads: seq<Head>)
      returns (next: nat, finished: bool, ghost all: seq<Head>)
      requires cursor <= |content| && InProgress(content, heads, State(), cursor)
      modifies this
      ensures next <= |content| && (finished || cursor < next)
      ensures HeadsLeft(content, all, next, finished) == heads + HeadsFrom(content, cursor)
      ensures InProgress(content, all, State(), if finished then |content| else next)
    {
      hide InProgress;
      hide HeadsFrom;
      hide OwnHeads;
      hide Gap;
      HeadsStep(content, cursor, heads);
      var end := NextBreak(content, cursor);
      BlockIsUnbroken(content, cursor);
      hide NextBreak;
      all := AddBlock(content, cursor, end, heads);
      if end == |content| {
        return end, true, all;
      }
      next := BreakEnd(content, end);
      hide BreakEnd;
      MovesOn(content, all, State(), end, next);
      finished := false;
    }

    /** What follows the heading line of a paragraph. */
    method AddRest(paragraph: string, from: nat, start: nat, ghost s: string, ghost heads: seq<Head>)
      requires from <= |paragraph| && start + |paragraph| <= |s| && paragraph == s[start..start + |paragraph|]
      requires InProgress(s, heads, State(), start + from) && Unbroken(paragraph)
      modifies this
      ensures InProgress(s, heads, State(), start + |paragraph|)
    {
      hide InProgress;
      hide Covers;
      hide Trim;
      hide IsSpace;
      hide Gap;
      ghost var end := start + |paragraph|;
      var after := paragraph[from..];
      var rest := Trim(after);
      var restStart := start + from + SkipSpace(after, 0);
      SliceOfSlice(s, start, end, from, |paragraph|);
      TrimInPlace(s, start + from, end);
      SliceIsUnbroken(paragraph, from, |paragraph|);
      TrimIsUnbroken(after);
      if |rest| > 0 {
        var pieces, _ := SplitLong(rest);
        CoversUnbroken(rest, 0, pieces, |rest|);
        CoversShift(s, restStart, restStart + |rest|, 0, pieces, |rest|);
        PackAll(pieces, restStart, s, heads, start + from, restStart + |rest|);
        MovesOn(s, heads, State(), restStart + |rest|, end);
      } else {
        GapJoins(s, start + from, restStart, end);
        MovesOn(s, heads, State(), start + from, end);
      }
    }
  }

  lemma CoversNothing(s: string, from: int, pieces: seq<Piece>, to: int)
    requires pieces == [] && Covers(s, from, pieces, to)
    ensures Gap(s, from, to)
  {
  }

  /** `chunkDocument`: every character that is not white space or heading lies in
      exactly one span; every chunk says what its span says, behind a seam that is
      the previous chunk's tail, under the nearest heading above it. */
  method ChunkDocument(rawContent: string) returns (chunks: seq<Chunk>)
    ensures var content := Normalised(rawContent);
            WellChunked(content, HeadsFrom(content, 0), chunks)
  {
    hide InProgress;
    hide HeadsFrom;
    hide HeadsLeft;
    hide Flushed;
    hide WellChunked;
    hide Normalised;
    var content := Normalised(rawContent);
    var packer := new ChunkPacker();
    var cursor: nat := 0;
    var finished := false;
    ghost var heads: seq<Head> := [];
    NothingIsSound(content);
    while !finished
      invariant cursor <= |content|
      invariant HeadsLeft(content, heads, cursor, finished) == HeadsFrom(content, 0)
      invariant InProgress(content, heads, packer.State(), if finished then |content| else cursor)
      decreases !finished, |content| - cursor
    {
      HeadsLeftNow(content, heads, cursor);
      cursor, finished, heads := packer.AddNext(content, cursor, heads);
    }
    HeadsLeftNow(content, heads, cursor);
    PassEnds(content, heads, packer.State());
    packer.Flush();
    return packer.chunks;
  }

  lemma HeadsLeftNow(s: string, heads: seq<Head>, cursor: nat)
    requires cursor <= |s|
    ensures HeadsLeft(s, heads, cursor, false) == heads + HeadsFrom(s, cursor)
    ensures HeadsLeft(s, heads, cursor, true) == heads
  {
  }

  /** The headings met so far and those still to come. */
  ghost function HeadsLeft(s: string, heads: seq<Head>, cursor: nat, finished: bool): seq<Head>
    requires cursor <= |s|
  {
    if finished then heads else heads + HeadsFrom(s, cursor)
  }

  lemma NothingIsSound(s: string)
    ensures InProgress(s, [], NOTHING, 0)
    ensures HeadsLeft(s, [], 0, false) == HeadsFrom(s, 0)
  {
    hide HeadsFrom;
    hide IsSpace;
    hide Erase;
    hide Join;
  }

  lemma HeadsStep(s: string, cursor: nat, heads: seq<Head>)
    requires cursor <= |s|
    ensures var end := NextBreak(s, cursor);
            var all := heads + OwnHeads(s, cursor, end);
            heads + HeadsFrom(s, cursor) == if end == |s| then all else all + HeadsFrom(s, BreakEnd(s, end))
  {
    hide OwnHeads;
    hide NextBreak;
    hide BreakEnd;
    var end := NextBreak(s, cursor);
    var own, later := OwnHeads(s, cursor, end), if end == |s| then [] else HeadsFrom(s, BreakEnd(s, end));
    assert HeadsFrom(s, cursor) == own + later;
    assert heads + (own + later) == heads + own + later;
  }

  lemma PassEnds(s: string, heads: seq<Head>, p: Packing)
    requires InProgress(s, heads, p, |s|)
    ensures WellChunked(s, heads, Flushed(p).chunks)
  {
    FlushFills(s, heads, p, |s|);
    FlushKeeps(s, heads, p, |s|);
    assert SpansOf(Flushed(p)) == ChunkSpans(Flushed(p).chunks);
  }

  // ----- heading lines are what they should be

  /** A block opens at `at`: only white space lies between it and the start of the
      text or a blank line. */
  ghost predicate OpensBlock(s: string, at: nat) {
    exists j: nat :: Gap(s, j, at) && BlockStart(s, j)
  }

  predicate BlockStart(s: string, j: nat) {
    j == 0 || (2 <= j <= |s| && s[j - 1] == '\n' == s[j - 2])
  }

  /** Only white space is left of the line. */
  ghost predicate LineIsOver(s: string, at: nat) {
    exists e: nat :: Gap(s, at, e) && (e == |s| || s[e] == '\n')
  }

  /** A whole line that opens a block and reads as a heading of that title. */
  ghost predicate RealHead(s: string, h: Head) {
    && h.start < h.end <= |s|
    && OpensBlock(s, h.start)
    && '\n' !in s[h.start..h.end]
    && Title(s[h.start..h.end]) == Some(h.title)
    && LineIsOver(s, h.end)
  }

  lemma {:induction false} FirstLineEnds(paragraph: string)
    ensures var n := |FirstLine(paragraph)|; n < |paragraph| ==> paragraph[n] == '\n'
  {
    if paragraph != "" && paragraph[0] != '\n' {
      FirstLineEnds(paragraph[1..]);
    }
  }

  lemma OwnHeadsAreReal(s: string, cursor: nat, end: nat)
    requires cursor <= end <= |s| && BlockStart(s, cursor) && (end == |s| || s[end] == '\n')
    ensures forall k :: 0 <= k < |OwnHeads(s, cursor, end)| ==> RealHead(s, OwnHeads(s, cursor, end)[k])
  {
    hide IsSpace;
    hide Trim;
    hide Title;
    hide FirstLine;
    var raw := s[cursor..end];
    var paragraph, start := Trim(raw), cursor + SkipSpace(raw, 0);
    TrimInPlace(s, cursor, end);
    if paragraph != "" && HeadOf(start, paragraph) != [] {
      assert OpensBlock(s, start);
      HeadIsReal(s, paragraph, start, end);
    }
  }

  lemma HeadIsReal(s: string, paragraph: string, start: nat, end: nat)
    requires start + |paragraph| <= end <= |s| && paragraph == s[start..start + |paragraph|]
    requires OpensBlock(s, start) && Gap(s, start + |paragraph|, end) && (end < |s| ==> s[end] == '\n')
    requires HeadOf(start, paragraph) != []
    ensures RealHead(s, HeadOf(start, paragraph)[0])
  {
    hide IsSpace;
    hide Title;
    hide OpensBlock;
    var h, line := HeadOf(start, paragraph)[0], FirstLine(paragraph);
    FirstLineEnds(paragraph);
    SliceOfSlice(s, start, start + |paragraph|, 0, |line|);
    assert paragraph[..|line|] == line == s[h.start..h.end];
    if h.end < start + |paragraph| {
      assert s[h.end] == paragraph[|line|];
      assert Gap(s, h.end, h.end);
    }
    assert LineIsOver(s, h.end);
  }

  /** Every heading is the first line of a block, and reads as a heading. */
  lemma {:induction false} HeadsAreReal(s: string, cursor: nat)
    requires cursor <= |s| && BlockStart(s, cursor)
    ensures forall k :: 0 <= k < |HeadsFrom(s, cursor)| ==> RealHead(s, HeadsFrom(s, cursor)[k])
    decreases |s| - cursor
  {
    var end := NextBreak(s, cursor);
    OwnHeadsAreReal(s, cursor, end);
    hide RealHead;
    hide OwnHeads;
    if end < |s| {
      BreakEndsABlankLine(s, end);
      HeadsAreReal(s, BreakEnd(s, end));
    }
  }

  ghost predicate Ascend(heads: seq<Head>, from: nat) {
    && (forall k :: 0 <= k < |heads| ==> from <= heads[k].start)
    && (forall j, k :: 0 <= j < k < |heads| ==> heads[j].start < heads[k].start)
  }

  lemma AscendJoin(own: seq<Head>, rest: seq<Head>, from: nat, next: nat)
    requires |own| <= 1 && (own != [] ==> from <= own[0].start < next) && Ascend(rest, next) && from <= next
    ensures Ascend(own + rest, from)
  {
  }

  /** Headings are met in the order they stand in. */
  lemma {:induction false} HeadsAscend(s: string, cursor: nat)
    requires cursor <= |s|
    ensures Ascend(HeadsFrom(s, cursor), cursor)
    decreases |s| - cursor
  {
    var end := NextBreak(s, cursor);
    OwnHeadsLieInside(s, cursor, end);
    hide OwnHeads;
    hide Ascend;
    AscendsNowhere(end);
    if end < |s| {
      HeadsAscend(s, BreakEnd(s, end));
      AscendJoin(OwnHeads(s, cursor, end), HeadsFrom(s, BreakEnd(s, end)), cursor, BreakEnd(s, end));
    } else {
      AscendJoin(OwnHeads(s, cursor, end), [], cursor, end);
    }
  }

  lemma AscendsNowhere(from: nat)
    ensures Ascend([], from)
  {
  }

  lemma OwnHeadsLieInside(s: string, cursor: nat, end: nat)
    requires cursor <= end <= |s|
    ensures |OwnHeads(s, cursor, end)| <= 1
    ensures OwnHeads(s, cursor, end) != [] ==> cursor <= OwnHeads(s, cursor, end)[0].start < end
  {
    TrimInPlace(s, cursor, end);
    hide IsSpace;
    hide Trim;
    hide Title;
  }

  /** A block begins with the text, or where a blank line ends. */
  predicate BeginsBlock(s: string, cursor: nat) {
    cursor <= |s| && BlockStart(s, cursor) && (cursor == 0 || cursor == |s| || s[cursor] != '\n')
  }

  /** The pass from one block on comes to every later one. */
  lemma {:induction false} BlocksAreRead(s: string, from: nat, cursor: nat)
    requires BeginsBlock(s, from) && BeginsBlock(s, cursor) && from <= cursor
    ensures forall h :: h in OwnHeads(s, cursor, NextBreak(s, cursor)) ==> h in HeadsFrom(s, from)
    decreases |s| - from
  {
    hide OwnHeads;
    hide Gap;
    if from < cursor {
      var end := NextBreak(s, from);
      assert end <= cursor - 2;
      hide NextBreak;
      BreakEndsABlankLine(s, end);
      BreakIsAllNewlines(s, end);
      BreakEndStops(s, end);
      hide BreakEnd;
      BlocksAreRead(s, BreakEnd(s, end), cursor);
    }
  }

  lemma {:induction false} BreakEndStops(s: string, from: nat)
    requires from <= |s|
    ensures BreakEnd(s, from) == |s| || s[BreakEnd(s, from)] != '\n'
    decreases |s| - from
  {
    hide Gap;
    if from < |s| && s[from] == '\n' {
      BreakEndStops(s, from + 1);
    }
  }

  /** And every block whose first line reads as a heading has its heading. */
  lemma NoHeadIsMissed(s: string, cursor: nat)
    requires BeginsBlock(s, cursor)
    ensures var raw := s[cursor..NextBreak(s, cursor)];
            var start, line := cursor + SkipSpace(raw, 0), FirstLine(Trim(raw));
            Title(line).Some? ==> Head(start, start + |line|, Title(line).value) in HeadsFrom(s, 0)
  {
    hide HeadsFrom;
    hide NextBreak;
    hide SkipSpace;
    hide Trim;
    hide Title;
    hide FirstLine;
    NothingReadsAsNothing();
    TextBegins(s);
    BlocksAreRead(s, 0, cursor);
    var raw := s[cursor..NextBreak(s, cursor)];
    var start, line := cursor + SkipSpace(raw, 0), FirstLine(Trim(raw));
    if Title(line).Some? {
      assert OwnHeads(s, cursor, NextBreak(s, cursor)) == HeadOf(start, Trim(raw));
      assert Head(start, start + |line|, Title(line).value) in HeadOf(start, Trim(raw));
    }
  }

  lemma NothingReadsAsNothing()
    ensures FirstLine("") == "" && Title("") == None
  {
  }

  lemma TextBegins(s: string)
    ensures BeginsBlock(s, 0)
  {
  }

  lemma BreakEndsABlankLine(s: string, at: nat)
    requires at + 1 < |s| && s[at] == '\n' == s[at + 1]
    ensures at + 2 <= BreakEnd(s, at) <= |s| && BlockStart(s, BreakEnd(s, at))
  {
    BreakIsAllNewlines(s, at);
    assert BreakEnd(s, at) == BreakEnd(s, at + 1) == BreakEnd(s, at + 2);
  }

  lemma {:induction false} BreakIsAllNewlines(s: string, from: nat)
    requires from <= |s|
    ensures forall i :: from <= i < BreakEnd(s, from) ==> s[i] == '\n'
    decreases |s| - from
  {
    hide Gap;
    if from < |s| && s[from] == '\n' {
      BreakIsAllNewlines(s, from + 1);
      assert BreakEnd(s, from) == BreakEnd(s, from + 1);
    } else {
      assert BreakEnd(s, from) == from;
    }
  }
}
