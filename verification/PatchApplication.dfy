/** Applying a patch: an independent reading of what a unified diff means, and
    the proof that the writer and the reader of diff.ts agree with it. */
module PatchApplication {
  import opened EditScripts
  import opened Options
  import opened Text
  import opened UnifiedDiff
  import opened DiffReader

  /** Apply parsed patch lines to `before`. `cursor` lines of it are consumed and
      `out` is produced so far; lines the patch does not mention are copied. */
  function Apply(before: seq<string>, patch: seq<DiffLine>, cursor: nat, out: seq<string>): Option<seq<string>> {
    if patch == [] then
      if cursor <= |before| then Some(out + before[cursor..]) else None
    else
      var line, rest := patch[0], patch[1..];
      match line.kind
      case Meta => Apply(before, rest, cursor, out)
      case HunkHeader => Apply(before, rest, cursor, out)
      case Removed => if !Matches(before, line, cursor) then None else
        var k := line.oldLine.value - 1;
        Apply(before, rest, k + 1, out + before[cursor..k])
      case Context => if !Matches(before, line, cursor) then None else
        var k := line.oldLine.value - 1;
        Apply(before, rest, k + 1, out + before[cursor..k] + [line.text])
      case Added => if line.newLine == None || line.newLine.value <= |out| then None else
        var k := cursor + (line.newLine.value - 1 - |out|);
        if k > |before| then None else Apply(before, rest, k, out + before[cursor..k] + [line.text])
  }

  /** The line is found in `before` under its number, at or past the cursor. */
  predicate Matches(before: seq<string>, line: DiffLine, cursor: nat) {
    line.oldLine.Some? && cursor < line.oldLine.value <= |before| && before[line.oldLine.value - 1] == line.text
  }

  predicate AllKept(ops: seq<Op>, from: nat, to: nat)
    requires from <= to <= |ops|
  {
    forall i :: from <= i < to ==> ops[i].kind == Keep
  }

  lemma {:induction false} KeptRun(ops: seq<Op>, from: nat, to: nat)
    requires from <= to <= |ops| && AllKept(ops, from, to)
    ensures Before(ops[from..to]) == After(ops[from..to])
    ensures |Before(ops[from..to])| == to - from
    decreases |ops| - from
  {
    if from < to {
      assert ops[from..to] == [ops[from]] + ops[from + 1..to];
      KeptRun(ops, from + 1, to);
    } else {
      assert ops[from..to] == [];
    }
  }

  /** What op `i` of a script stands on, when everything between `q` and `i` is kept. */
  lemma CatchUp(ops: seq<Op>, q: nat, i: nat)
    requires q <= i <= |ops| && AllKept(ops, q, i)
    ensures |Before(ops[..q])| + (i - q) == |Before(ops[..i])| <= |Before(ops)|
    ensures |After(ops[..q])| + (i - q) == |After(ops[..i])|
    ensures After(ops[..i]) == After(ops[..q]) + Before(ops)[|Before(ops[..q])|..|Before(ops[..i])|]
  {
    assert ops[..i] == ops[..q] + ops[q..i];
    assert ops == ops[..i] + ops[i..];
    Projections(ops[..q], ops[q..i]);
    Projections(ops[..i], ops[i..]);
    KeptRun(ops, q, i);
    var b := Before(ops[..q]);
    assert Before(ops)[|b|..|Before(ops[..i])|] == Before(ops[q..i]);
  }

  /** Applying the line of op `i` brings both sides from op `q` past op `i`. */
  lemma ApplyOp(ops: seq<Op>, q: nat, i: nat, rest: seq<DiffLine>)
    requires q <= i < |ops| && AllKept(ops, q, i)
    ensures Apply(Before(ops), [LineOf(ops, i)] + rest, |Before(ops[..q])|, After(ops[..q]))
            == Apply(Before(ops), rest, |Before(ops[..i + 1])|, After(ops[..i + 1]))
  {
    hide LineOf;
    CatchUp(ops, q, i);
    LineStands(ops, i);
    assert ops[0..i + 1] == ops[..i + 1] && ops[0..i] == ops[..i];
    PrefixStep(ops, 0, i);
    hide Before;
    hide After;
    assert ([LineOf(ops, i)] + rest)[1..] == rest;
    var before, out := Before(ops), After(ops[..q]);
    var cursor, k := |Before(ops[..q])|, |Before(ops[..i])|;
    assert out + before[cursor..k] == After(ops[..i]);
    assert Before(ops[..i]) + [] == Before(ops[..i]) && After(ops[..i]) + [] == After(ops[..i]);
    match ops[i].kind
    case Keep =>
    case Remove =>
    case Insert =>
      assert cursor + (|After(ops[..i])| - |out|) == k;
  }

  /** The line of op `i` names the place the ops before it lead to. */
  lemma LineStands(ops: seq<Op>, i: nat)
    requires i < |ops|
    ensures var line := LineOf(ops, i);
            match ops[i].kind
            case Keep =>
              line.kind == Context && line.text == ops[i].text && line.oldLine == Some(|Before(ops[..i])| + 1)
              && Matches(Before(ops), line, |Before(ops[..i])|)
            case Remove =>
              line.kind == Removed && line.oldLine == Some(|Before(ops[..i])| + 1)
              && Matches(Before(ops), line, |Before(ops[..i])|)
            case Insert =>
              line.kind == Added && line.text == ops[i].text && line.newLine == Some(|After(ops[..i])| + 1)
  {
    hide Before;
    hide After;
    hide LineOf;
    LineNames(ops, i);
    NumbersAreTrue(ops, i);
  }

  lemma LineNames(ops: seq<Op>, i: nat)
    requires i < |ops|
    ensures var line := LineOf(ops, i);
            && line.text == ops[i].text
            && line.kind == (match ops[i].kind case Keep => Context case Remove => Removed case Insert => Added)
            && line.oldLine == (if ops[i].kind == Insert then None else Some(|Before(ops[..i])| + 1))
            && line.newLine == (if ops[i].kind == Remove then None else Some(|After(ops[..i])| + 1))
  {
    hide Before;
    hide After;
  }

  lemma {:induction false} ApplyLines(ops: seq<Op>, q: nat, from: nat, to: nat, rest: seq<DiffLine>)
    requires q <= from < to <= |ops| && AllKept(ops, q, from)
    ensures Apply(Before(ops), LinesOf(ops, from, to) + rest, |Before(ops[..q])|, After(ops[..q]))
            == Apply(Before(ops), rest, |Before(ops[..to])|, After(ops[..to]))
    decreases |ops| - from
  {
    var tail := LinesOf(ops, from + 1, to) + rest;
    assert LinesOf(ops, from, to) + rest == [LineOf(ops, from)] + tail;
    ApplyOp(ops, q, from, tail);
    if from + 1 < to {
      ApplyLines(ops, from + 1, from + 1, to, rest);
    } else {
      assert LinesOf(ops, from + 1, to) == [];
      assert tail == rest;
    }
  }

  lemma ApplyHunk(ops: seq<Op>, q: nat, w: Span, rest: seq<DiffLine>)
    requires q <= w.from <= w.to < |ops| && AllKept(ops, q, w.from)
    ensures Apply(Before(ops), HunkOf(ops, w) + rest, |Before(ops[..q])|, After(ops[..q]))
            == Apply(Before(ops), rest, |Before(ops[..w.to + 1])|, After(ops[..w.to + 1]))
  {
    hide Header;
    var lines := LinesOf(ops, w.from, w.to + 1) + rest;
    var patch := HunkOf(ops, w) + rest;
    assert patch[0] == DiffLine(HunkHeader, Header(ops, w), None, None);
    assert patch[1..] == lines;
    ApplyLines(ops, q, w.from, w.to + 1, rest);
  }

  /** Every change from `q` on lies in one of the windows. */
  ghost predicate CoversFrom(ops: seq<Op>, q: nat, windows: seq<Span>) {
    forall k: nat :: q <= k < |ops| && ops[k].kind != Keep ==> Covered(windows, k)
  }

  lemma NothingCoveredBefore(windows: seq<Span>, i: nat)
    requires windows != [] && Increasing(windows) && i < windows[0].from
    requires forall k :: 0 <= k < |windows| ==> windows[k].from <= windows[k].to
    ensures !Covered(windows, i)
  {
  }

  /** With no change left, the rest of the old side is copied. */
  lemma ApplyNone(ops: seq<Op>, q: nat)
    requires q <= |ops| && CoversFrom(ops, q, [])
    ensures Apply(Before(ops), [], |Before(ops[..q])|, After(ops[..q])) == Some(After(ops))
  {
    assert AllKept(ops, q, |ops|) by {
      assert forall k :: !Covered([], k);
    }
    CatchUp(ops, q, |ops|);
    assert ops[..|ops|] == ops;
    var before, cursor := Before(ops), |Before(ops[..q])|;
    assert before[cursor..] == before[cursor..|before|];
  }

  /** Past its first window, the others cover what is left. */
  lemma CoversPast(ops: seq<Op>, q: nat, windows: seq<Span>)
    requires windows != [] && WindowsIn(windows, |ops|) && Increasing(windows) && q <= windows[0].from
    requires CoversFrom(ops, q, windows)
    ensures AllKept(ops, q, windows[0].from)
    ensures CoversFrom(ops, windows[0].to + 1, windows[1..])
  {
    var w, rest := windows[0], windows[1..];
    forall i | q <= i < w.from ensures ops[i].kind == Keep {
      NothingCoveredBefore(windows, i);
    }
    forall k: nat | w.to + 1 <= k < |ops| && ops[k].kind != Keep ensures Covered(rest, k) {
      var j :| 0 <= j < |windows| && windows[j].from <= k <= windows[j].to;
      assert rest[j - 1] == windows[j];
    }
  }

  lemma {:induction false} ApplyHunks(ops: seq<Op>, q: nat, windows: seq<Span>)
    requires q <= |ops| && WindowsIn(windows, |ops|) && Increasing(windows)
    requires windows != [] ==> q <= windows[0].from
    requires CoversFrom(ops, q, windows)
    ensures Apply(Before(ops), HunksOf(ops, windows), |Before(ops[..q])|, After(ops[..q])) == Some(After(ops))
    decreases |windows|
  {
    hide Apply;
    hide CoversFrom;
    hide AllKept;
    hide HunkOf;
    if windows == [] {
      ApplyNone(ops, q);
    } else {
      var w, rest := windows[0], windows[1..];
      CoversPast(ops, q, windows);
      ApplyHunk(ops, q, w, HunksOf(ops, rest));
      ApplyHunks(ops, w.to + 1, rest);
    }
  }

  /** The printed patch is cut exactly when its last line is the notice. */
  lemma CutShowsAtTheEnd(ops: seq<Op>, maxLines: int)
    requires Changes(ops) > 0
    ensures var out := OutLines(ops, maxLines);
            out != [] && (PlanOf(ops, maxLines).truncated <==> out[|out| - 1] == NOTICE)
  {
    SizeIsBounded(ops, maxLines);
    PlanWindowsIn(ops, maxLines);
    var plan := PlanOf(ops, maxLines);
    hide PlanOf;
    hide Header;
    if !plan.truncated {
      LastIsNoNotice(ops, plan.windows);
    }
  }

  lemma {:induction false} LastIsNoNotice(ops: seq<Op>, windows: seq<Span>)
    requires windows != [] && WindowsIn(windows, |ops|)
    ensures var out := HunkLines(ops, windows);
            out != [] && out[|out| - 1] != NOTICE
  {
    hide NOTICE;
    hide Hunk;
    if |windows| > 1 {
      LastIsNoNotice(ops, windows[1..]);
    } else {
      assert HunkLines(ops, windows[1..]) == [];
      assert HunkLines(ops, windows) == Hunk(ops, windows[0]);
      HunkEndsWithOp(ops, windows[0]);
      PrintedIsNoNotice(ops[windows[0].to]);
    }
  }

  lemma HunkEndsWithOp(ops: seq<Op>, w: Span)
    requires w.from <= w.to < |ops|
    ensures var lines := Hunk(ops, w);
            lines != [] && lines[|lines| - 1] == Printed(ops[w.to])
  {
    hide Header;
    hide Printed;
    var body := Body(ops[w.from..w.to + 1]);
    assert body[|body| - 1] == Printed(ops[w.to]);
  }

  lemma PrintedIsNoNotice(op: Op)
    ensures Printed(op) != NOTICE
  {
    assert CUT_MARK[0] == '\U{2026}';
    assert NOTICE[0] == CUT_MARK[0];
  }

  lemma {:induction false} OpsComeFromTheTexts(ops: seq<Op>)
    ensures forall op :: op in ops ==> if op.kind == Insert then op.text in After(ops) else op.text in Before(ops)
  {
    if ops != [] {
      OpsComeFromTheTexts(ops[1..]);
    }
  }

  lemma ScriptTextsAreSingle(before: string, after: string)
    ensures forall op :: op in Script(Lines(before), Lines(after)) ==> OneLine(op.text)
  {
    var ops := Script(Lines(before), Lines(after));
    ScriptIsOptimal(Lines(before), Lines(after));
    OpsComeFromTheTexts(ops);
    LinesAreSingle(before);
    LinesAreSingle(after);
    forall op | op in ops ensures OneLine(op.text) {
      assert op.text in Before(ops) || op.text in After(ops);
    }
  }

  /** Writer, reader and applier together: for any two texts and any budget, an
      uncut, readable patch turns the lines of one text into the lines of the other. */
  lemma PatchReproducesAfter(before: string, after: string, maxLines: int)
    requires Patch(before, after, maxLines) != ""
    ensures var ops := Script(Lines(before), Lines(after));
            var plan := PlanOf(ops, maxLines);
            WindowsIn(plan.windows, |ops|) &&
            (!plan.truncated && WindowsReadable(ops, plan.windows) ==>
               Apply(Lines(before), Parsed(Patch(before, after, maxLines)), 0, []) == Some(Lines(after)))
  {
    var b, a := Lines(before), Lines(after);
    var ops := Script(b, a);
    var plan := PlanOf(ops, maxLines);
    hide Script;
    hide Changes;
    hide PlanOf;
    hide Near;
    hide Covered;
    hide WindowsReadable;
    hide Parsed;
    hide Apply;
    hide Lines;
    hide Before;
    hide After;
    hide Kept;
    ScriptIsOptimal(b, a);
    SizeIsBounded(ops, maxLines);
    PlanIsSound(ops, maxLines);
    ScriptTextsAreSingle(before, after);
    ReadsWhatWasWritten(ops, maxLines);
    if !plan.truncated {
      assert CoversFrom(ops, 0, plan.windows) by {
        ChangesAreNear(ops);
      }
      ApplyHunks(ops, 0, plan.windows);
      NothingBefore(ops);
      NoNotice(ops, plan);
    }
  }

  lemma NothingBefore(ops: seq<Op>)
    ensures |Before(ops[..0])| == 0 && After(ops[..0]) == []
  {
  }

  lemma NoNotice(ops: seq<Op>, plan: Plan)
    requires WindowsIn(plan.windows, |ops|) && !plan.truncated
    ensures Expected(ops, plan) == HunksOf(ops, plan.windows)
  {
  }

  lemma ChangesAreNear(ops: seq<Op>)
    ensures forall k: nat :: k < |ops| && ops[k].kind != Keep ==> Near(ChangedIndexes(ops), k)
  {
  }

  /** A condition on the texts alone that keeps every patch between them readable. */
  lemma PlainTextsAreReadable(before: string, after: string, maxLines: int)
    requires forall line :: line in Lines(before) ==> !StartsWith(line, "-- ")
    requires forall line :: line in Lines(after) ==> !StartsWith(line, "++ ")
    ensures var ops := Script(Lines(before), Lines(after));
            var windows := PlanOf(ops, maxLines).windows;
            WindowsIn(windows, |ops|) && WindowsReadable(ops, windows)
  {
    var ops := Script(Lines(before), Lines(after));
    ScriptIsOptimal(Lines(before), Lines(after));
    OpsComeFromTheTexts(ops);
    PlanWindowsIn(ops, maxLines);
    forall i | 0 <= i < |ops| ensures Readable(ops[i]) {
      assert ops[i] in ops;
    }
  }

  lemma OneLineText(line: string)
    requires OneLine(line) && line != ""
    ensures Lines(line) == [line]
  {
    NormaliseLeaves(line);
    SplitOneLine(line);
  }

  lemma {:induction false} NormaliseLeaves(line: string)
    requires OneLine(line)
    ensures Normalise(line) == line
  {
    if line != "" {
      NormaliseLeaves(line[1..]);
      assert line == [line[0]] + line[1..];
    }
  }

  /** The one hunk of a patch that removes a single line. */
  lemma OneRemovalPatch(line: string, maxLines: int)
    requires maxLines >= 3 && OneLine(line) && line != ""
    ensures var ops := [Op(Remove, line)];
            && Script(Lines(line), Lines("")) == ops
            && OutLines(ops, maxLines) == [Header(ops, Span(0, 0)), Printed(ops[0])]
  {
    OneLineText(line);
    var ops := [Op(Remove, line)];
    OneRemovalScript(line);
    OneRemovalPlan(line, maxLines);
    hide PlanOf;
    hide Header;
    var w := Span(0, 0);
    assert [w][1..] == [] && ops[0..1] == ops;
    assert HunkLines(ops, [w]) == Hunk(ops, w);
  }

  lemma OneRemovalScript(line: string)
    ensures Script([line], []) == [Op(Remove, line)]
  {
    var before: seq<string> := [line];
    assert before[0..1] == before && before[..0] == [] && before[1..] == [] && before[0..] == before;
    assert Walk(before, []) == [Op(Remove, line)];
  }

  lemma OneRemovalPlan(line: string, maxLines: int)
    requires maxLines >= 3
    ensures PlanOf([Op(Remove, line)], maxLines) == Plan([Span(0, 0)], false)
  {
    hide ChangedIndexes;
    hide Groups;
    hide PlanFrom;
    OneChange(line);
    OneGroup();
    OneWindow(maxLines);
  }

  lemma OneChange(line: string)
    ensures ChangedIndexes([Op(Remove, line)]) == [0]
  {
    assert [Op(Remove, line)][..0] == [];
    assert ChangedIndexes([]) == [];
  }

  lemma OneGroup()
    ensures Groups([0]) == [Span(0, 0)]
  {
    assert [0][..0] == [] && Groups([]) == [];
  }

  lemma OneWindow(maxLines: int)
    requires maxLines >= 3
    ensures PlanFrom([Span(0, 0)], 1, maxLines, 0) == Plan([Span(0, 0)], false)
  {
    var g := Span(0, 0);
    assert Window(g, 1) == g && Fit(g, Room(maxLines, 0)) == g;
    assert [g][1..] == [] && [g] + [] == [g];
  }

  /** A removed line that starts with `-- ` is lost: the patch that removes it reads
      back as a hunk without a removed line, and the line as file metadata. */
  lemma RemovedDashesAreLost(line: string, maxLines: int)
    requires maxLines >= 3 && OneLine(line) && StartsWith(line, "-- ")
    ensures var lines := Parsed(Patch(line, "", maxLines));
            |lines| == 2 && lines[0].kind == HunkHeader && lines[1].kind == Meta
  {
    hide ReadLine;
    hide Header;
    hide GutterAt;
    hide Printed;
    hide OutLines;
    hide Script;
    OneRemovalPatch(line, maxLines);
    var ops, w := [Op(Remove, line)], Span(0, 0);
    var header, body := Header(ops, w), Printed(ops[0]);
    HeaderIsSingle(ops, w);
    RemovalIsSingle(line);
    assert forall part :: part in [header, body] ==> OneLine(part);
    SplitUndoesJoin([header, body]);
    assert Parsed(Patch(line, "", maxLines)) == ReadLines([header, body], Gutter(0, 0));
    ReadsHeaderLine(ops, w, Gutter(0, 0));
    ReadsPrinted(ops[0], GutterAt(ops, 0));
    ReadLinesStep(header, [body], Gutter(0, 0));
    ReadLinesStep(body, [], GutterAt(ops, 0));
    assert [header, body] == [header] + [body] && [body] == [body] + [];
    var first, second := ReadLine(header, Gutter(0, 0)).0, ReadLine(body, GutterAt(ops, 0)).0;
    assert first == DiffLine(HunkHeader, header, None, None);
    assert !Readable(ops[0]) && second.kind == Meta;
    assert Parsed(Patch(line, "", maxLines)) == [first, second];
  }

  lemma RemovalIsSingle(line: string)
    requires OneLine(line)
    ensures OneLine(Printed(Op(Remove, line)))
  {
  }
}
