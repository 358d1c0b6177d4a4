/** The reader half of packages/shared/src/diff.ts, `parseDiff`, and how it
    agrees with the writer. */
module DiffReader {
  import opened EditScripts
  import opened Text
  import opened UnifiedDiff
  import opened Options

  datatype LineKind = Added | Removed | Context | Meta | HunkHeader

  /** One line of a patch; the numbers are what each side shows in its gutter. */
  datatype DiffLine = DiffLine(kind: LineKind, text: string, oldLine: Option<nat>, newLine: Option<nat>)

  /** The running gutter numbers. */
  datatype Gutter = Gutter(before: nat, after: nat)

  // ----- hunk headers

  /** The numbers of a header `@@ -start,count +start,count @@`; a count may be absent. */
  datatype Numbers = Numbers(oldStart: nat, oldCount: Option<nat>, newStart: nat, newCount: Option<nat>)

  /** `\d+` at the start of `s`, and what follows it. */
  function TakeNumber(s: string): Option<(nat, string)> {
    var n := DigitRun(s);
    if n == 0 then None else Some((Number(s[..n]), s[n..]))
  }

  /** `(?:,\d+)?` at the start of `s`, and what follows it. */
  function TakeCount(s: string): (Option<nat>, string) {
    if !StartsWith(s, ",") then (None, s)
    else match TakeNumber(s[1..])
      case None => (None, s)
      case Some((count, rest)) => (Some(count), rest)
  }

  /** `/^@@ -(\d+)(?:,\d+)? \+(\d+)(?:,\d+)? @@/`: after a run of digits only a
      comma or a space can match, so no backtracking changes the outcome. */
  function MatchHeader(raw: string): Option<Numbers> {
    if !StartsWith(raw, "@@ -") then None
    else match TakeNumber(raw[4..])
      case None => None
      case Some((oldStart, rest)) =>
        var (oldCount, tail) := TakeCount(rest);
        if !StartsWith(tail, " +") then None
        else match TakeNumber(tail[2..])
          case None => None
          case Some((newStart, rest)) =>
            var (newCount, tail) := TakeCount(rest);
            if !StartsWith(tail, " @@") then None
            else Some(Numbers(oldStart, oldCount, newStart, newCount))
  }

  lemma TakesDecimal(n: nat, rest: string)
    requires rest != "" && !IsDigit(rest[0])
    ensures TakeNumber(Decimal(n) + rest) == Some((n, rest))
  {
    var s := Decimal(n) + rest;
    DigitRunStops(Decimal(n), rest);
    NumberOfDecimal(n);
    assert s[..|Decimal(n)|] == Decimal(n) && s[|Decimal(n)|..] == rest;
  }

  lemma TakesDecimalCount(n: nat, rest: string)
    requires rest != "" && !IsDigit(rest[0])
    ensures TakeCount("," + Decimal(n) + rest) == (Some(n), rest)
  {
    var s := "," + Decimal(n) + rest;
    assert s[1..] == Decimal(n) + rest;
    TakesDecimal(n, rest);
  }

  lemma TakesRange(start: nat, count: nat, rest: string)
    requires rest != "" && !IsDigit(rest[0])
    ensures var taken := TakeNumber(PrintRange(start, count) + rest);
            taken.Some? && taken.value.0 == start && TakeCount(taken.value.1) == (Some(count), rest)
  {
    var tail := "," + Decimal(count) + rest;
    assert PrintRange(start, count) + rest == Decimal(start) + tail;
    TakesDecimal(start, tail);
    TakesDecimalCount(count, rest);
  }

  /** The reader recovers the four numbers the writer printed. */
  lemma ReadsHeader(oldStart: nat, oldCount: nat, newStart: nat, newCount: nat)
    ensures MatchHeader(PrintHeader(oldStart, oldCount, newStart, newCount))
            == Some(Numbers(oldStart, Some(oldCount), newStart, Some(newCount)))
  {
    var raw := PrintHeader(oldStart, oldCount, newStart, newCount);
    var right := " +" + PrintRange(newStart, newCount) + " @@";
    hide TakeNumber;
    hide TakeCount;
    hide PrintRange;
    assert raw == "@@ -" + PrintRange(oldStart, oldCount) + right;
    assert raw[4..] == PrintRange(oldStart, oldCount) + right;
    assert right[2..] == PrintRange(newStart, newCount) + " @@";
    TakesRange(oldStart, oldCount, right);
    TakesRange(newStart, newCount, " @@");
  }

  /** A count as a header may carry it: absent, or a comma and digits. */
  datatype Count = Absent | Written(digits: string) {
    predicate Valid() {
      Written? ==> digits != "" && AllDigits(digits)
    }

    function Text(): string {
      if Written? then "," + digits else ""
    }

    function Value(): Option<nat>
      requires Valid()
    {
      if Written? then Some(Number(digits)) else None
    }
  }

  /** A header from its second range on. */
  function RightText(start: string, count: Count, rest: string): string {
    " +" + (start + count.Text() + (" @@" + rest))
  }

  function HeaderText(oldStart: string, oldCount: Count, newStart: string, newCount: Count, rest: string): string {
    "@@ -" + (oldStart + oldCount.Text() + RightText(newStart, newCount, rest))
  }

  lemma TakesDigits(digits: string, rest: string)
    requires digits != "" && AllDigits(digits) && (rest == "" || !IsDigit(rest[0]))
    ensures TakeNumber(digits + rest) == Some((Number(digits), rest))
  {
    DigitRunStops(digits, rest);
    assert (digits + rest)[..|digits|] == digits && (digits + rest)[|digits|..] == rest;
  }

  lemma TakesEitherCount(count: Count, rest: string)
    requires count.Valid() && rest != "" && !IsDigit(rest[0]) && rest[0] != ','
    ensures TakeCount(count.Text() + rest) == (count.Value(), rest)
  {
    hide Number;
    hide AllDigits;
    hide DigitRun;
    hide TakeNumber;
    if count.Written? {
      TakesDigits(count.digits, rest);
      assert (count.Text() + rest)[1..] == count.digits + rest;
    } else {
      assert count.Text() + rest == rest;
    }
  }

  lemma TakesEitherRange(start: string, count: Count, rest: string)
    requires start != "" && AllDigits(start) && count.Valid()
    requires rest != "" && !IsDigit(rest[0]) && rest[0] != ','
    ensures var taken := TakeNumber(start + count.Text() + rest);
            taken.Some? && taken.value.0 == Number(start) && TakeCount(taken.value.1) == (count.Value(), rest)
  {
    var tail := count.Text() + rest;
    assert start + count.Text() + rest == start + tail;
    TakesDigits(start, tail);
    TakesEitherCount(count, rest);
  }

  /** Every text of the form `@@ -digits[,digits] +digits[,digits] @@...` reads as the
      numbers it denotes, the counts present or not, whatever follows ... */
  lemma ReadsEveryHeader(oldStart: string, oldCount: Count, newStart: string, newCount: Count, rest: string)
    requires oldStart != "" && AllDigits(oldStart) && newStart != "" && AllDigits(newStart)
    requires oldCount.Valid() && newCount.Valid()
    ensures MatchHeader(HeaderText(oldStart, oldCount, newStart, newCount, rest))
            == Some(Numbers(Number(oldStart), oldCount.Value(), Number(newStart), newCount.Value()))
  {
    hide TakeNumber;
    hide TakeCount;
    hide Number;
    hide AllDigits;
    hide IsDigit;
    var right := RightText(newStart, newCount, rest);
    TakesLeft(oldStart, oldCount, right);
    TakesRight(newStart, newCount, rest);
    HeaderSplits(oldStart, oldCount, newStart, newCount, rest);
    hide HeaderText;
    hide RightText;
  }

  lemma HeaderSplits(oldStart: string, oldCount: Count, newStart: string, newCount: Count, rest: string)
    ensures var raw := HeaderText(oldStart, oldCount, newStart, newCount, rest);
            StartsWith(raw, "@@ -") && raw[4..] == oldStart + oldCount.Text() + RightText(newStart, newCount, rest)
  {
    hide RightText;
    DropsPrefix("@@ -", oldStart + oldCount.Text() + RightText(newStart, newCount, rest));
  }

  lemma TakesLeft(start: string, count: Count, right: string)
    requires start != "" && AllDigits(start) && count.Valid() && StartsWith(right, " +")
    ensures var taken := TakeNumber(start + count.Text() + right);
            taken.Some? && taken.value.0 == Number(start) && TakeCount(taken.value.1) == (count.Value(), right)
  {
    assert right[0] == " +"[0];
    TakesEitherRange(start, count, right);
  }

  lemma TakesRight(start: string, count: Count, rest: string)
    requires start != "" && AllDigits(start) && count.Valid()
    ensures var right, end := RightText(start, count, rest), " @@" + rest;
            var taken := if StartsWith(right, " +") then TakeNumber(right[2..]) else None;
            && StartsWith(right, " +") && StartsWith(end, " @@")
            && taken.Some? && taken.value.0 == Number(start) && TakeCount(taken.value.1) == (count.Value(), end)
  {
    hide Number;
    hide AllDigits;
    hide DigitRun;
    hide TakeNumber;
    hide TakeCount;
    RightSplits(start, count, rest);
    hide RightText;
    TakesEitherRange(start, count, " @@" + rest);
  }

  lemma TakenNumber(s: string) returns (digits: string, rest: string)
    requires TakeNumber(s).Some?
    ensures s == digits + rest && digits != "" && AllDigits(digits) && TakeNumber(s) == Some((Number(digits), rest))
  {
    var n := DigitRun(s);
    digits, rest := s[..n], s[n..];
  }

  lemma TakenCount(s: string) returns (count: Count)
    ensures count.Valid() && count.Value() == TakeCount(s).0 && s == count.Text() + TakeCount(s).1
  {
    count := Absent;
    if StartsWith(s, ",") && TakeNumber(s[1..]).Some? {
      var digits, rest := TakenNumber(s[1..]);
      count := Written(digits);
      assert s == "," + s[1..];
    }
  }

  lemma TakenRange(s: string) returns (start: string, count: Count)
    requires TakeNumber(s).Some?
    ensures start != "" && AllDigits(start) && count.Valid()
    ensures s == start + count.Text() + TakeCount(TakeNumber(s).value.1).1
  {
    hide AllDigits;
    hide Number;
    hide TakeCount;
    hide DigitRun;
    hide TakeNumber;
    var rest;
    start, rest := TakenNumber(s);
    count := TakenCount(rest);
    Regrouped(start, count.Text(), TakeCount(rest).1);
  }

  /** ... and nothing else reads as a header. */
  lemma ReadsOnlyHeaders(raw: string)
      returns (oldStart: string, oldCount: Count, newStart: string, newCount: Count, rest: string)
    requires MatchHeader(raw).Some?
    ensures oldStart != "" && AllDigits(oldStart) && newStart != "" && AllDigits(newStart)
    ensures oldCount.Valid() && newCount.Valid()
    ensures raw == HeaderText(oldStart, oldCount, newStart, newCount, rest)
  {
    hide AllDigits;
    hide TakeNumber;
    hide TakeCount;
    oldStart, oldCount := TakenRange(raw[4..]);
    var right := TakeCount(TakeNumber(raw[4..]).value.1).1;
    newStart, newCount := TakenRange(right[2..]);
    var tail := TakeCount(TakeNumber(right[2..]).value.1).1;
    rest := tail[3..];
    HeaderJoins(raw, right, tail, oldStart, oldCount, newStart, newCount);
  }

  lemma HeaderJoins(raw: string, right: string, tail: string,
                    oldStart: string, oldCount: Count, newStart: string, newCount: Count)
    requires StartsWith(raw, "@@ -") && StartsWith(right, " +") && StartsWith(tail, " @@")
    requires raw[4..] == oldStart + oldCount.Text() + right && right[2..] == newStart + newCount.Text() + tail
    ensures raw == HeaderText(oldStart, oldCount, newStart, newCount, tail[3..])
  {
    var rest := tail[3..];
    HeaderSplits(oldStart, oldCount, newStart, newCount, rest);
    RightSplits(newStart, newCount, rest);
    hide HeaderText;
    hide RightText;
    assert " @@" <= tail && " @@" <= " @@" + rest && (" @@" + rest)[3..] == rest;
    SameAfterPrefix(tail, " @@" + rest, " @@");
    SameAfterPrefix(right, RightText(newStart, newCount, rest), " +");
    SameAfterPrefix(raw, HeaderText(oldStart, oldCount, newStart, newCount, rest), "@@ -");
  }

  lemma RightSplits(start: string, count: Count, rest: string)
    ensures var right := RightText(start, count, rest);
            StartsWith(right, " +") && right[2..] == start + count.Text() + (" @@" + rest)
  {
    DropsPrefix(" +", start + count.Text() + (" @@" + rest));
  }

  // ----- one line

  predicate IsMetadata(raw: string) {
    || StartsWith(raw, "diff ") || StartsWith(raw, "index ")
    || StartsWith(raw, "--- ") || StartsWith(raw, "+++ ")
    || StartsWith(raw, "new file") || StartsWith(raw, "deleted file")
    || StartsWith(raw, "similarity ") || StartsWith(raw, "rename ")
  }

  /** What one raw line reads as, and the gutter after it. */
  function ReadLine(raw: string, at: Gutter): (DiffLine, Gutter) {
    if StartsWith(raw, "@@") then
      var next := match MatchHeader(raw)
        case None => Gutter(0, 0)
        case Some(n) => Gutter(n.oldStart, n.newStart);
      (DiffLine(HunkHeader, raw, None, None), next)
    else if IsMetadata(raw) then (DiffLine(Meta, raw, None, None), at)
    else if StartsWith(raw, "+") then
      (DiffLine(Added, raw[1..], None, Some(at.after)), at.(after := at.after + 1))
    else if StartsWith(raw, "-") then
      (DiffLine(Removed, raw[1..], Some(at.before), None), at.(before := at.before + 1))
    else if StartsWith(raw, "\\") then (DiffLine(Meta, raw, None, None), at)
    else
      (DiffLine(Context, if StartsWith(raw, " ") then raw[1..] else raw, Some(at.before), Some(at.after)),
       Gutter(at.before + 1, at.after + 1))
  }

  /** A line git writes about the file is shown whole and moves neither number, and so is
      the one that starts with a backslash. */
  lemma ReadsMetadata(prefix: string, rest: string, at: Gutter)
    requires prefix in ["diff ", "index ", "--- ", "+++ ", "new file", "deleted file", "similarity ", "rename ", "\\"]
    ensures ReadLine(prefix + rest, at) == (DiffLine(Meta, prefix + rest, None, None), at)
  {
    var raw := prefix + rest;
    assert StartsWith(raw, prefix) && raw[0] == prefix[0];
  }

  /** Every other line is a header, an addition, a removal or context by its first
      character, and a header that cannot be read starts both sides at nought. */
  lemma ReadsTheRest(raw: string, at: Gutter)
    requires raw == "" || raw[0] !in "dinsr\\"
    requires !StartsWith(raw, "--- ") && !StartsWith(raw, "+++ ")
    ensures var (line, next) := ReadLine(raw, at);
            if StartsWith(raw, "@@") then
              line == DiffLine(HunkHeader, raw, None, None) && (MatchHeader(raw) == None ==> next == Gutter(0, 0))
            else if raw != "" && raw[0] == '+' then
              line == DiffLine(Added, raw[1..], None, Some(at.after)) && next == Gutter(at.before, at.after + 1)
            else if raw != "" && raw[0] == '-' then
              line == DiffLine(Removed, raw[1..], Some(at.before), None) && next == Gutter(at.before + 1, at.after)
            else
              && line == DiffLine(Context, if raw != "" && raw[0] == ' ' then raw[1..] else raw, Some(at.before), Some(at.after))
              && next == Gutter(at.before + 1, at.after + 1)
  {
    hide MatchHeader;
    assert raw != "" ==> StartsWith(raw, [raw[0]]);
  }

  function ReadLines(raws: seq<string>, at: Gutter): (lines: seq<DiffLine>)
    ensures |lines| == |raws|
  {
    if raws == [] then []
    else
      var (line, next) := ReadLine(raws[0], at);
      [line] + ReadLines(raws[1..], next)
  }

  function GutterAfter(raws: seq<string>, at: Gutter): Gutter {
    if raws == [] then at else GutterAfter(raws[1..], ReadLine(raws[0], at).1)
  }

  function Parsed(diff: string): seq<DiffLine> {
    ReadLines(SplitLines(diff), Gutter(0, 0))
  }

  lemma {:induction false} ReadLinesAppend(a: seq<string>, b: seq<string>, at: Gutter)
    ensures ReadLines(a + b, at) == ReadLines(a, at) + ReadLines(b, GutterAfter(a, at))
    ensures GutterAfter(a + b, at) == GutterAfter(b, GutterAfter(a, at))
  {
    if a == [] {
      assert a + b == b;
    } else {
      assert (a + b)[1..] == a[1..] + b;
      ReadLinesAppend(a[1..], b, ReadLine(a[0], at).1);
    }
  }

  method ParseDiff(diff: string) returns (lines: seq<DiffLine>)
    ensures lines == Parsed(diff)
  {
    var raws := SplitLines(diff);
    var at := Gutter(0, 0);
    lines := [];
    assert raws[0..] == raws;
    for k := 0 to |raws|
      invariant lines + ReadLines(raws[k..], at) == ReadLines(raws, Gutter(0, 0))
    {
      assert raws[k..][1..] == raws[k + 1..];
      var (line, next) := ReadLine(raws[k], at);
      assert lines + ([line] + ReadLines(raws[k + 1..], next)) == lines + [line] + ReadLines(raws[k + 1..], next);
      lines := lines + [line];
      at := next;
    }
  }

  // ----- reading what the writer wrote

  /** The 1-based numbers op `i` has on each side. */
  function GutterAt(ops: seq<Op>, i: nat): Gutter
    requires i <= |ops|
  {
    Gutter(1 + |Before(ops[..i])|, 1 + |After(ops[..i])|)
  }

  /** How op `i` of the script should read: its own text under its true numbers. */
  function LineOf(ops: seq<Op>, i: nat): DiffLine
    requires i < |ops|
  {
    var at := GutterAt(ops, i);
    match ops[i].kind
    case Keep => DiffLine(Context, ops[i].text, Some(at.before), Some(at.after))
    case Remove => DiffLine(Removed, ops[i].text, Some(at.before), None)
    case Insert => DiffLine(Added, ops[i].text, None, Some(at.after))
  }

  function LinesOf(ops: seq<Op>, from: nat, to: nat): (lines: seq<DiffLine>)
    requires from <= to <= |ops|
    ensures |lines| == to - from
  {
    seq(to - from, k requires 0 <= k < to - from => LineOf(ops, from + k))
  }

  function HunkOf(ops: seq<Op>, w: Span): (lines: seq<DiffLine>)
    requires w.from <= w.to < |ops|
    ensures |lines| == w.to - w.from + 2
  {
    [DiffLine(HunkHeader, Header(ops, w), None, None)] + LinesOf(ops, w.from, w.to + 1)
  }

  function HunksOf(ops: seq<Op>, windows: seq<Span>): seq<DiffLine>
    requires WindowsIn(windows, |ops|)
  {
    if windows == [] then [] else HunkOf(ops, windows[0]) + HunksOf(ops, windows[1..])
  }

  function GutterAtEnd(ops: seq<Op>, windows: seq<Span>): Gutter
    requires WindowsIn(windows, |ops|)
  {
    if windows == [] then Gutter(0, 0) else GutterAt(ops, windows[|windows| - 1].to + 1)
  }

  /** What the operator should see: the printed ops, and the notice if the patch was cut. */
  function Expected(ops: seq<Op>, plan: Plan): seq<DiffLine>
    requires WindowsIn(plan.windows, |ops|)
  {
    HunksOf(ops, plan.windows)
    + NoticeLines(plan.truncated, GutterAtEnd(ops, plan.windows))
  }

  /** A removed line starting `-- ` or an added one starting `++ ` reads as file metadata. */
  predicate Readable(op: Op) {
    match op.kind
    case Keep => true
    case Remove => !StartsWith(op.text, "-- ")
    case Insert => !StartsWith(op.text, "++ ")
  }

  predicate AllReadable(ops: seq<Op>, from: nat, to: nat)
    requires from <= to <= |ops|
  {
    forall i :: from <= i < to ==> Readable(ops[i])
  }

  predicate WindowsReadable(ops: seq<Op>, windows: seq<Span>)
    requires WindowsIn(windows, |ops|)
  {
    forall k :: 0 <= k < |windows| ==> AllReadable(ops, windows[k].from, windows[k].to + 1)
  }

  lemma GutterStep(ops: seq<Op>, i: nat)
    requires i < |ops|
    ensures GutterAt(ops, i + 1).before == GutterAt(ops, i).before + if ops[i].kind == Insert then 0 else 1
    ensures GutterAt(ops, i + 1).after == GutterAt(ops, i).after + if ops[i].kind == Remove then 0 else 1
  {
    assert ops[0..i + 1] == ops[..i + 1] && ops[0..i] == ops[..i];
    PrefixStep(ops, 0, i);
  }

  lemma ReadsOneOp(ops: seq<Op>, i: nat)
    requires i < |ops|
    ensures ReadLine(Printed(ops[i]), GutterAt(ops, i)).0 == LineOf(ops, i) <==> Readable(ops[i])
    ensures Readable(ops[i]) ==> ReadLine(Printed(ops[i]), GutterAt(ops, i)).1 == GutterAt(ops, i + 1)
  {
    hide ReadLine;
    hide Printed;
    hide GutterAt;
    hide Readable;
    GutterStep(ops, i);
    ReadsPrinted(ops[i], GutterAt(ops, i));
  }

  /** A printed op, wherever the reader stands: itself, or metadata. */
  lemma ReadsPrinted(op: Op, at: Gutter)
    ensures var (line, next) := ReadLine(Printed(op), at);
            if !Readable(op) then line.kind == Meta
            else match op.kind
              case Keep =>
                line == DiffLine(Context, op.text, Some(at.before), Some(at.after)) && next == Gutter(at.before + 1, at.after + 1)
              case Remove => line == DiffLine(Removed, op.text, Some(at.before), None) && next == Gutter(at.before + 1, at.after)
              case Insert => line == DiffLine(Added, op.text, None, Some(at.after)) && next == Gutter(at.before, at.after + 1)
  {
    hide MatchHeader;
    var raw := Printed(op);
    assert raw[1..] == op.text;
    assert raw[0] == Sign(op.kind);
    match op.kind
    case Keep =>
    case Remove => Shifted('-', op.text, "-- ");
    case Insert => Shifted('+', op.text, "++ ");
  }

  lemma Shifted(sign: char, text: string, prefix: string)
    ensures StartsWith([sign] + text, [sign] + prefix) <==> StartsWith(text, prefix)
  {
    var s, p := [sign] + text, [sign] + prefix;
    if StartsWith(text, prefix) {
      assert text == prefix + text[|prefix|..];
      assert s == p + text[|prefix|..];
    }
    if StartsWith(s, p) {
      assert s[..|p|] == p;
      assert text[..|prefix|] == s[..|p|][1..];
    }
  }

  lemma {:induction false} ReadsBody(ops: seq<Op>, from: nat, to: nat)
    requires from <= to <= |ops|
    ensures ReadLines(Body(ops[from..to]), GutterAt(ops, from)) == LinesOf(ops, from, to) <==> AllReadable(ops, from, to)
    ensures AllReadable(ops, from, to) ==> GutterAfter(Body(ops[from..to]), GutterAt(ops, from)) == GutterAt(ops, to)
    decreases |ops| - from
  {
    hide Body;
    hide LinesOf;
    hide LineOf;
    hide Printed;
    hide ReadLine;
    hide GutterAt;
    hide Readable;
    hide AllReadable;
    if from == to {
      NothingToRead(ops, from, GutterAt(ops, from));
    } else {
      var first, body, at := Printed(ops[from]), Body(ops[from + 1..to]), GutterAt(ops, from);
      BodySplits(ops, from, to);
      ReadsOneOp(ops, from);
      ReadsBody(ops, from + 1, to);
      ReadLinesStep(first, body, at);
      SameParts([ReadLine(first, at).0], ReadLines(body, ReadLine(first, at).1), [LineOf(ops, from)], LinesOf(ops, from + 1, to));
    }
  }

  lemma NothingToRead(ops: seq<Op>, from: nat, at: Gutter)
    requires from <= |ops|
    ensures ReadLines(Body(ops[from..from]), at) == LinesOf(ops, from, from) == [] && AllReadable(ops, from, from)
    ensures GutterAfter(Body(ops[from..from]), at) == at
  {
  }

  /** The first op of a range, as it is printed, as it should read, and whether it can. */
  lemma BodySplits(ops: seq<Op>, from: nat, to: nat)
    requires from < to <= |ops|
    ensures Body(ops[from..to]) == [Printed(ops[from])] + Body(ops[from + 1..to])
    ensures LinesOf(ops, from, to) == [LineOf(ops, from)] + LinesOf(ops, from + 1, to)
    ensures AllReadable(ops, from, to) <==> Readable(ops[from]) && AllReadable(ops, from + 1, to)
  {
    hide Printed;
    hide LineOf;
    hide Readable;
  }

  lemma ReadLinesStep(raw: string, rest: seq<string>, at: Gutter)
    ensures ReadLines([raw] + rest, at) == [ReadLine(raw, at).0] + ReadLines(rest, ReadLine(raw, at).1)
    ensures GutterAfter([raw] + rest, at) == GutterAfter(rest, ReadLine(raw, at).1)
  {
    hide ReadLine;
    assert ([raw] + rest)[1..] == rest;
  }

  lemma ReadsHeaderLine(ops: seq<Op>, w: Span, at: Gutter)
    requires w.from <= w.to < |ops|
    ensures ReadLine(Header(ops, w), at) == (DiffLine(HunkHeader, Header(ops, w), None, None), GutterAt(ops, w.from))
  {
    hide MatchHeader;
    hide PrintHeader;
    ReadsPrintedHeader(1 + |Before(ops[..w.from])|, |Before(ops[w.from..w.to + 1])|,
                       1 + |After(ops[..w.from])|, |After(ops[w.from..w.to + 1])|, at);
  }

  lemma ReadsPrintedHeader(oldStart: nat, oldCount: nat, newStart: nat, newCount: nat, at: Gutter)
    ensures var raw := PrintHeader(oldStart, oldCount, newStart, newCount);
            ReadLine(raw, at) == (DiffLine(HunkHeader, raw, None, None), Gutter(oldStart, newStart))
  {
    hide MatchHeader;
    hide PrintHeader;
    hide IsMetadata;
    ReadsHeader(oldStart, oldCount, newStart, newCount);
    HeaderOpens(oldStart, oldCount, newStart, newCount);
  }

  lemma HeaderOpens(oldStart: nat, oldCount: nat, newStart: nat, newCount: nat)
    ensures StartsWith(PrintHeader(oldStart, oldCount, newStart, newCount), "@@")
  {
    hide PrintRange;
  }

  lemma ReadsHunk(ops: seq<Op>, w: Span, at: Gutter)
    requires w.from <= w.to < |ops|
    ensures ReadLines(Hunk(ops, w), at) == HunkOf(ops, w) <==> AllReadable(ops, w.from, w.to + 1)
    ensures AllReadable(ops, w.from, w.to + 1) ==> GutterAfter(Hunk(ops, w), at) == GutterAt(ops, w.to + 1)
  {
    hide PrintHeader;
    hide Header;
    hide ReadLine;
    hide Printed;
    var header, body := Header(ops, w), Body(ops[w.from..w.to + 1]);
    ReadsHeaderLine(ops, w, at);
    hide Body;
    hide LinesOf;
    hide ReadLine;
    hide GutterAt;
    hide AllReadable;
    ReadLinesStep(header, body, at);
    ReadsBody(ops, w.from, w.to + 1);
    SameParts([ReadLine(header, at).0], ReadLines(body, ReadLine(header, at).1),
              [DiffLine(HunkHeader, header, None, None)], LinesOf(ops, w.from, w.to + 1));
  }

  lemma {:induction false} ReadsHunks(ops: seq<Op>, windows: seq<Span>, at: Gutter)
    requires WindowsIn(windows, |ops|)
    ensures ReadLines(HunkLines(ops, windows), at) == HunksOf(ops, windows) <==> WindowsReadable(ops, windows)
    ensures WindowsReadable(ops, windows) ==>
              GutterAfter(HunkLines(ops, windows), at) == if windows == [] then at else GutterAtEnd(ops, windows)
  {
    hide ReadLine;
    hide Hunk;
    hide HunkOf;
    hide AllReadable;
    hide GutterAt;
    if windows != [] {
      var w, rest := windows[0], windows[1..];
      var first, others := Hunk(ops, w), HunkLines(ops, rest);
      HunksSplit(ops, windows);
      ReadableParts(ops, windows);
      hide WindowsReadable;
      hide HunkLines;
      hide HunksOf;
      hide GutterAtEnd;
      ReadLinesAppend(first, others, at);
      ReadsHunk(ops, w, at);
      ReadsHunks(ops, rest, GutterAfter(first, at));
      SameParts(ReadLines(first, at), ReadLines(others, GutterAfter(first, at)), HunkOf(ops, w), HunksOf(ops, rest));
    }
  }

  /** The first hunk of a patch, as it is printed and as it should read. */
  lemma HunksSplit(ops: seq<Op>, windows: seq<Span>)
    requires windows != [] && WindowsIn(windows, |ops|)
    ensures WindowsIn(windows[1..], |ops|)
    ensures HunkLines(ops, windows) == Hunk(ops, windows[0]) + HunkLines(ops, windows[1..])
    ensures HunksOf(ops, windows) == HunkOf(ops, windows[0]) + HunksOf(ops, windows[1..])
    ensures GutterAtEnd(ops, windows) ==
            if windows[1..] == [] then GutterAt(ops, windows[0].to + 1) else GutterAtEnd(ops, windows[1..])
  {
    hide Hunk;
    hide HunkOf;
    hide GutterAtEnd;
    EndOfRest(ops, windows);
  }

  lemma EndOfRest(ops: seq<Op>, windows: seq<Span>)
    requires windows != [] && WindowsIn(windows, |ops|)
    ensures GutterAtEnd(ops, windows) ==
            if windows[1..] == [] then GutterAt(ops, windows[0].to + 1) else GutterAtEnd(ops, windows[1..])
  {
    hide GutterAt;
    if |windows| > 1 {
      assert windows[1..][|windows| - 2] == windows[|windows| - 1];
    }
  }

  lemma ReadableParts(ops: seq<Op>, windows: seq<Span>)
    requires windows != [] && WindowsIn(windows, |ops|)
    ensures WindowsReadable(ops, windows) <==>
            AllReadable(ops, windows[0].from, windows[0].to + 1) && WindowsReadable(ops, windows[1..])
  {
    if AllReadable(ops, windows[0].from, windows[0].to + 1) && WindowsReadable(ops, windows[1..]) {
      forall k | 0 <= k < |windows| ensures AllReadable(ops, windows[k].from, windows[k].to + 1) {
        if k > 0 {
          assert windows[k] == windows[1..][k - 1];
        }
      }
    }
    if WindowsReadable(ops, windows) {
      forall k | 0 <= k < |windows[1..]| ensures AllReadable(ops, windows[1..][k].from, windows[1..][k].to + 1) {
        assert windows[1..][k] == windows[k + 1];
      }
    }
  }

  lemma SameParts(a: seq<DiffLine>, b: seq<DiffLine>, c: seq<DiffLine>, d: seq<DiffLine>)
    requires |a| == |c|
    ensures a + b == c + d <==> a == c && b == d
  {
    if a + b == c + d {
      assert a == (a + b)[..|a|] && c == (c + d)[..|a|];
      assert b == (a + b)[|a|..] && d == (c + d)[|a|..];
    }
  }

  /** The reader recovers every line the writer printed, under its true numbers,
      exactly when no printed line looks like file metadata. */
  lemma ReadsWhatWasWritten(ops: seq<Op>, maxLines: int)
    requires forall op :: op in ops ==> OneLine(op.text)
    requires Changes(ops) > 0
    ensures var plan := PlanOf(ops, maxLines);
            WindowsIn(plan.windows, |ops|) &&
            (Parsed(Rendered(ops, maxLines)) == Expected(ops, plan) <==> WindowsReadable(ops, plan.windows))
  {
    var plan := PlanOf(ops, maxLines);
    PlanWindowsIn(ops, maxLines);
    SizeIsBounded(ops, maxLines);
    NoticeIsContext();
    OutLinesAreSingle(ops, plan.windows);
    hide ReadLine;
    hide PlanOf;
    hide Changes;
    hide HunkLines;
    hide HunksOf;
    hide GutterAtEnd;
    hide WindowsReadable;
    hide SplitLines;
    hide Join;
    var out := OutLines(ops, maxLines);
    var hunks, notice := HunkLines(ops, plan.windows), if plan.truncated then [NOTICE] else [];
    SplitUndoesJoin(out);
    ReadLinesAppend(hunks, notice, Gutter(0, 0));
    ReadsHunks(ops, plan.windows, Gutter(0, 0));
    var at := GutterAfter(hunks, Gutter(0, 0));
    var end := if plan.windows == [] then Gutter(0, 0) else GutterAtEnd(ops, plan.windows);
    ReadsNotice(plan.truncated, at);
    ReadsNotice(plan.truncated, end);
    HunksOfLength(ops, plan.windows);
    SameParts(ReadLines(hunks, Gutter(0, 0)), ReadLines(notice, at), HunksOf(ops, plan.windows), NoticeLines(plan.truncated, end));
  }

  function NoticeLines(truncated: bool, at: Gutter): seq<DiffLine> {
    if truncated then [DiffLine(Context, NOTICE, Some(at.before), Some(at.after))] else []
  }

  lemma ReadsNotice(truncated: bool, at: Gutter)
    ensures ReadLines(if truncated then [NOTICE] else [], at) == NoticeLines(truncated, at)
  {
    NoticeIsContext();
    hide ReadLine;
    if truncated {
      ReadLinesStep(NOTICE, [], at);
      assert [NOTICE] + [] == [NOTICE];
    }
  }

  /** The truncation notice reads as a context line, the one line that is no op of the script. */
  lemma NoticeIsContext()
    ensures forall at :: ReadLine(NOTICE, at).0 == DiffLine(Context, NOTICE, Some(at.before), Some(at.after))
    ensures OneLine(NOTICE)
  {
    assert OneLine(CUT_MARK) && OneLine(CUT_REASON) && OneLine(" is not shown.");
    assert NOTICE[0] == CUT_MARK[0] == '\U{2026}';
    forall at ensures ReadLine(NOTICE, at).0 == DiffLine(Context, NOTICE, Some(at.before), Some(at.after)) {
      hide NOTICE;
      OtherwiseContext(NOTICE, at);
    }
  }

  /** A line that opens with none of the characters the reader looks for is context. */
  lemma OtherwiseContext(raw: string, at: Gutter)
    requires raw != "" && raw[0] !in "@dinsr-+\\ "
    ensures ReadLine(raw, at).0 == DiffLine(Context, raw, Some(at.before), Some(at.after))
  {
  }

  lemma {:induction false} HunksOfLength(ops: seq<Op>, windows: seq<Span>)
    requires WindowsIn(windows, |ops|)
    ensures |HunksOf(ops, windows)| == |HunkLines(ops, windows)|
  {
    if windows != [] {
      HunksOfLength(ops, windows[1..]);
    }
  }

  lemma HeaderIsSingle(ops: seq<Op>, w: Span)
    requires w.from <= w.to < |ops|
    ensures OneLine(Header(ops, w))
  {
    DecimalIsSingle(1 + |Before(ops[..w.from])|);
    DecimalIsSingle(|Before(ops[w.from..w.to + 1])|);
    DecimalIsSingle(1 + |After(ops[..w.from])|);
    DecimalIsSingle(|After(ops[w.from..w.to + 1])|);
  }

  lemma DecimalIsSingle(n: nat)
    ensures OneLine(Decimal(n))
  {
    var s := Decimal(n);
    forall i | 0 <= i < |s| ensures s[i] != '\n' {
      assert IsDigit(s[i]);
    }
  }

  lemma {:induction false} OutLinesAreSingle(ops: seq<Op>, windows: seq<Span>)
    requires forall op :: op in ops ==> OneLine(op.text)
    requires WindowsIn(windows, |ops|)
    ensures forall line :: line in HunkLines(ops, windows) ==> OneLine(line)
  {
    if windows != [] {
      var w := windows[0];
      OutLinesAreSingle(ops, windows[1..]);
      forall line | line in Hunk(ops, w) ensures OneLine(line) {
        if line != Header(ops, w) {
          var k :| 0 <= k < w.to + 1 - w.from && line == Printed(ops[w.from..w.to + 1][k]);
          assert ops[w.from + k] in ops;
        } else {
          HeaderIsSingle(ops, w);
        }
      }
    }
  }

  /** The header's counts are the numbers of lines of each side that follow it. */
  lemma HeaderCountsWhatFollows(ops: seq<Op>, w: Span)
    requires w.from <= w.to < |ops|
    ensures var body := LinesOf(ops, w.from, w.to + 1);
            MatchHeader(Header(ops, w)) == Some(Numbers(
              GutterAt(ops, w.from).before, Some(CountOld(body)), GutterAt(ops, w.from).after, Some(CountNew(body))))
  {
    hide MatchHeader;
    hide PrintHeader;
    hide CountOld;
    hide CountNew;
    hide LinesOf;
    ReadsHeader(1 + |Before(ops[..w.from])|, |Before(ops[w.from..w.to + 1])|,
                1 + |After(ops[..w.from])|, |After(ops[w.from..w.to + 1])|);
    CountsMatch(ops, w.from, w.to + 1);
  }

  function CountOld(lines: seq<DiffLine>): nat {
    if lines == [] then 0 else (if lines[0].oldLine.Some? then 1 else 0) + CountOld(lines[1..])
  }

  function CountNew(lines: seq<DiffLine>): nat {
    if lines == [] then 0 else (if lines[0].newLine.Some? then 1 else 0) + CountNew(lines[1..])
  }

  lemma {:induction false} CountsMatch(ops: seq<Op>, from: nat, to: nat)
    requires from <= to <= |ops|
    ensures CountOld(LinesOf(ops, from, to)) == |Before(ops[from..to])|
    ensures CountNew(LinesOf(ops, from, to)) == |After(ops[from..to])|
    decreases |ops| - from
  {
    if from == to {
      assert ops[from..to] == [];
    } else {
      assert LinesOf(ops, from, to) == [LineOf(ops, from)] + LinesOf(ops, from + 1, to);
      assert ops[from..to][1..] == ops[from + 1..to];
      CountsMatch(ops, from + 1, to);
    }
  }

  /** The numbers are true: each line is found under its number on its own side. */
  lemma NumbersAreTrue(ops: seq<Op>, i: nat)
    requires i < |ops|
    ensures var line := LineOf(ops, i);
            && (line.oldLine.Some? ==>
                  1 <= line.oldLine.value <= |Before(ops)| && Before(ops)[line.oldLine.value - 1] == line.text)
            && (line.newLine.Some? ==>
                  1 <= line.newLine.value <= |After(ops)| && After(ops)[line.newLine.value - 1] == line.text)
  {
    assert ops == ops[..i] + ops[i..];
    Projections(ops[..i], ops[i..]);
  }
}
