/** The writer half of packages/shared/src/diff.ts: `lines`, `toHunks`,
    `unifiedDiff` and `changedLineRatio`. */
module UnifiedDiff {
  import opened EditScripts
  import opened Text
  import opened UnitInterval

  const CONTEXT := 3

  const CUT_MARK: string := "\U{2026} diff truncated \U{2014}"
  const CUT_REASON: string := " the rest of the change"
  const NOTICE: string := CUT_MARK + CUT_REASON + " is not shown."

  /** An inclusive range of indexes into an edit script. */
  datatype Span = Span(from: nat, to: nat)

  // ----- lines of a text

  /** `text.replace(/\r\n/g, '\n')`. */
  function Normalise(text: string): string {
    if |text| < 2 then text
    else if text[0] == '\r' && text[1] == '\n' then "\n" + Normalise(text[2..])
    else [text[0]] + Normalise(text[1..])
  }

  function Lines(text: string): seq<string> {
    if text == "" then []
    else
      var split := SplitLines(Normalise(text));
      if split[|split| - 1] == "" then split[..|split| - 1] else split
  }

  lemma LinesAreSingle(text: string)
    ensures forall line :: line in Lines(text) ==> OneLine(line)
  {
    SplitLinesAreSingle(Normalise(text));
  }

  /** A text is its lines with a break between each two of them, and one more at the
      end if it ends in one: no line is lost and none is made up. */
  lemma LinesAreTheText(text: string)
    requires text != ""
    ensures var folded := Normalise(text);
            folded == Join(Lines(text), "\n") + if EndsInBreak(folded) then "\n" else ""
  {
    hide Normalise;
    var folded := Normalise(text);
    var split := SplitLines(folded);
    var last := split[|split| - 1];
    FoldedIsNotEmpty(text);
    JoinUndoesSplit(folded);
    SplitLinesAreSingle(folded);
    if |split| > 1 {
      assert split == split[..|split| - 1] + [last];
      JoinSplitsLast(split[..|split| - 1], last, "\n");
    }
    assert folded[|folded| - 1] == if last == "" then '\n' else last[|last| - 1];
    assert last in split;
  }

  lemma FoldedIsNotEmpty(text: string)
    requires text != ""
    ensures Normalise(text) != ""
  {
  }

  /** Folding turns each carriage return and line feed in a row into one line feed ... */
  lemma {:induction false} FoldsEachBreak(a: string, b: string)
    ensures Normalise(a + "\r\n" + b) == Normalise(a) + "\n" + Normalise(b)
    decreases |a|
  {
    hide Normalise;
    var whole, tail := a + "\r\n" + b, "\n" + Normalise(b);
    if a == "" {
      assert whole[2..] == b;
      FoldsPair(whole);
      FoldsNothing();
      assert "" + tail == tail;
    } else if |a| >= 2 && a[0] == '\r' && a[1] == '\n' {
      assert whole[2..] == a[2..] + "\r\n" + b;
      FoldsEachBreak(a[2..], b);
      FoldsPair(a);
      FoldsPair(whole);
      Regrouped("\n", Normalise(a[2..]), tail);
    } else {
      assert whole[1..] == a[1..] + "\r\n" + b;
      FoldsEachBreak(a[1..], b);
      FoldsFirst(a);
      FoldsFirst(whole);
      Regrouped([a[0]], Normalise(a[1..]), tail);
    }
    Regrouped(Normalise(a), "\n", Normalise(b));
  }

  lemma FoldsNothing()
    ensures Normalise("") == ""
  {
  }

  lemma FoldsPair(text: string)
    requires |text| >= 2 && text[0] == '\r' && text[1] == '\n'
    ensures Normalise(text) == "\n" + Normalise(text[2..])
  {
  }

  lemma FoldsFirst(text: string)
    requires text != "" && !(|text| >= 2 && text[0] == '\r' && text[1] == '\n')
    ensures Normalise(text) == [text[0]] + Normalise(text[1..])
  {
  }

  predicate PairAt(text: string, i: nat) {
    i + 1 < |text| && text[i] == '\r' && text[i + 1] == '\n'
  }

  /** ... and changes nothing else. */
  lemma {:induction false} FoldsNothingElse(text: string)
    requires forall i: nat :: !PairAt(text, i)
    ensures Normalise(text) == text
  {
    if |text| >= 2 {
      assert !PairAt(text, 0);
      forall i: nat ensures !PairAt(text[1..], i) {
        assert !PairAt(text, i + 1);
      }
      FoldsNothingElse(text[1..]);
    }
  }

  // ----- which ops are printed

  ghost predicate Ascending(s: seq<nat>) {
    forall i, j :: 0 <= i < j < |s| ==> s[i] < s[j]
  }

  function ChangedIndexes(ops: seq<Op>): (changed: seq<nat>)
    ensures forall k: nat :: k in changed <==> k < |ops| && ops[k].kind != Keep
    ensures Ascending(changed)
  {
    if ops == [] then []
    else
      var last := |ops| - 1;
      var changed := ChangedIndexes(ops[..last]);
      assert forall i :: 0 <= i < |changed| ==> changed[i] in changed;
      if ops[last].kind == Keep then changed else changed + [last]
  }

  /** Add one changed index to the groups before it. */
  function Extend(groups: seq<Span>, index: nat): seq<Span> {
    if groups != [] && index - groups[|groups| - 1].to <= CONTEXT * 2
    then groups[|groups| - 1 := groups[|groups| - 1].(to := index)]
    else groups + [Span(index, index)]
  }

  function Groups(changed: seq<nat>): seq<Span> {
    if changed == [] then []
    else Extend(Groups(changed[..|changed| - 1]), changed[|changed| - 1])
  }

  /** The printed windows of the script, and whether something was cut. */
  datatype Plan = Plan(windows: seq<Span>, truncated: bool)

  /** A group with the context around it. */
  function Window(group: Span, length: nat): Span
    requires group.from <= group.to < length
  {
    Span(if group.from < CONTEXT then 0 else group.from - CONTEXT,
         if group.to + CONTEXT < length then group.to + CONTEXT else length - 1)
  }

  /** What the budget leaves for ops, a header and a closing notice set aside. */
  function Room(maxLines: int, used: nat): int {
    maxLines - used - 2
  }

  /** The part of a window there is room for. */
  function Fit(w: Span, room: int): (cut: Span)
    requires room > 0 && w.from <= w.to
    ensures cut.from == w.from <= cut.to <= w.to
  {
    if w.from + room - 1 < w.to then Span(w.from, w.from + room - 1) else w
  }

  predicate InScript(groups: seq<Span>, length: nat) {
    forall i :: 0 <= i < |groups| ==> groups[i].from <= groups[i].to < length
  }

  /** How many lines a window prints: its header and its ops. */
  function WindowLines(w: Span): int {
    w.to - w.from + 2
  }

  function PlanFrom(groups: seq<Span>, length: nat, maxLines: int, used: nat): Plan
    requires InScript(groups, length)
  {
    if groups == [] then Plan([], false)
    else if Room(maxLines, used) <= 0 then Plan([], true)
    else
      var w := Fit(Window(groups[0], length), Room(maxLines, used));
      if w != Window(groups[0], length) then Plan([w], true)
      else
        var rest := PlanFrom(groups[1..], length, maxLines, used + WindowLines(w));
        Plan([w] + rest.windows, rest.truncated)
  }

  ghost predicate Apart(groups: seq<Span>) {
    forall i, j :: 0 <= i < j < |groups| ==> groups[i].to + CONTEXT * 2 < groups[j].from
  }

  predicate Covered(spans: seq<Span>, k: nat) {
    exists i :: 0 <= i < |spans| && spans[i].from <= k <= spans[i].to
  }

  /** `k` is a changed index or at most `CONTEXT` away from one. */
  ghost predicate Near(changed: seq<nat>, k: nat) {
    exists c :: c in changed && k <= c + CONTEXT && c <= k + CONTEXT
  }

  ghost predicate Bounded(groups: seq<Span>, changed: seq<nat>) {
    forall i :: 0 <= i < |groups| ==>
      groups[i].from <= groups[i].to && groups[i].from in changed && groups[i].to in changed
  }

  ghost predicate AllNear(groups: seq<Span>, changed: seq<nat>) {
    forall i, k: nat :: 0 <= i < |groups| && groups[i].from <= k <= groups[i].to ==> Near(changed, k)
  }

  ghost predicate AllCovered(groups: seq<Span>, changed: seq<nat>) {
    forall k :: k in changed ==> Covered(groups, k)
  }

  ghost predicate EndsTogether(groups: seq<Span>, changed: seq<nat>) {
    && (changed == [] <==> groups == [])
    && (groups != [] ==> groups[|groups| - 1].to == changed[|changed| - 1])
  }

  /** What grouping the changed indexes achieves. */
  ghost predicate Grouped(groups: seq<Span>, changed: seq<nat>) {
    && Apart(groups)
    && Bounded(groups, changed)
    && AllNear(groups, changed)
    && AllCovered(groups, changed)
    && EndsTogether(groups, changed)
  }

  lemma ExtendStaysApart(groups: seq<Span>, index: nat)
    requires Apart(groups)
    requires groups != [] ==> groups[|groups| - 1].to < index
    requires forall i :: 0 <= i < |groups| ==> groups[i].from <= groups[i].to
    ensures Apart(Extend(groups, index))
  {
    var next := Extend(groups, index);
    forall i, j | 0 <= i < j < |next| ensures next[i].to + CONTEXT * 2 < next[j].from {
      assert next[i] == groups[i];
      if j < |groups| {
        assert next[j].from == groups[j].from;
      } else if i < |groups| - 1 {
        assert groups[i].to + CONTEXT * 2 < groups[|groups| - 1].from;
      }
    }
  }

  lemma ExtendStaysBounded(groups: seq<Span>, changed: seq<nat>, index: nat)
    requires Bounded(groups, changed) && EndsTogether(groups, changed)
    requires groups != [] ==> groups[|groups| - 1].to < index
    ensures Bounded(Extend(groups, index), changed + [index]) && EndsTogether(Extend(groups, index), changed + [index])
  {
    var next, all := Extend(groups, index), changed + [index];
    forall i | 0 <= i < |next| ensures next[i].from <= next[i].to && next[i].from in all && next[i].to in all {
      assert index in all;
      if i < |groups| {
        assert groups[i].from in changed && groups[i].to in changed;
        assert next[i].from == groups[i].from;
      }
    }
  }

  lemma ExtendStaysCovered(groups: seq<Span>, changed: seq<nat>, index: nat)
    requires AllCovered(groups, changed)
    requires groups != [] ==> groups[|groups| - 1].from <= groups[|groups| - 1].to < index
    ensures AllCovered(Extend(groups, index), changed + [index])
  {
    var all, next := changed + [index], Extend(groups, index);
    forall k | k in all ensures Covered(next, k) {
      if k == index {
        assert next[|next| - 1].from <= k <= next[|next| - 1].to;
      } else {
        assert k in changed;
        var i :| 0 <= i < |groups| && groups[i].from <= k <= groups[i].to;
        assert next[i].from <= k <= next[i].to;
      }
    }
  }

  lemma ExtendStaysNear(groups: seq<Span>, changed: seq<nat>, index: nat)
    requires AllNear(groups, changed) && Bounded(groups, changed)
    requires groups != [] ==> groups[|groups| - 1].to < index
    ensures AllNear(Extend(groups, index), changed + [index])
  {
    var all, next := changed + [index], Extend(groups, index);
    forall i, k: nat | 0 <= i < |next| && next[i].from <= k <= next[i].to ensures Near(all, k) {
      if i < |groups| && k <= groups[i].to {
        assert groups[i].from <= k <= groups[i].to;
        assert Near(changed, k);
        var c :| c in changed && k <= c + CONTEXT && c <= k + CONTEXT;
        assert c in all;
      } else if k + CONTEXT < index {
        var last := groups[|groups| - 1];
        assert last.to in all;
      } else {
        assert index in all;
      }
    }
  }

  lemma ExtendKeepsGrouped(groups: seq<Span>, changed: seq<nat>, index: nat)
    requires Grouped(groups, changed)
    requires changed != [] ==> changed[|changed| - 1] < index
    ensures Grouped(Extend(groups, index), changed + [index])
  {
    hide AllNear;
    hide AllCovered;
    hide Extend;
    hide Apart;
    ExtendStaysApart(groups, index);
    ExtendStaysBounded(groups, changed, index);
    ExtendStaysCovered(groups, changed, index);
    ExtendStaysNear(groups, changed, index);
  }

  lemma {:induction false} GroupsShape(changed: seq<nat>)
    requires Ascending(changed)
    ensures Grouped(Groups(changed), changed)
  {
    hide Grouped;
    if changed == [] {
      EmptyIsGrouped();
    } else {
      var init, index := changed[..|changed| - 1], changed[|changed| - 1];
      assert changed == init + [index];
      GroupsShape(init);
      ExtendKeepsGrouped(Groups(init), init, index);
    }
  }

  lemma EmptyIsGrouped()
    ensures Grouped([], [])
  {
  }

  function PlanOf(ops: seq<Op>, maxLines: int): Plan {
    GroupsInScript(ops);
    PlanFrom(Groups(ChangedIndexes(ops)), |ops|, maxLines, 0)
  }

  // ----- what is printed

  function PrintRange(start: nat, count: nat): string {
    Decimal(start) + "," + Decimal(count)
  }

  function PrintHeader(oldStart: nat, oldCount: nat, newStart: nat, newCount: nat): string {
    "@@ -" + PrintRange(oldStart, oldCount) + " +" + PrintRange(newStart, newCount) + " @@"
  }

  /** The header of a window: 1-based starts, and counts over the ops it prints. */
  function Header(ops: seq<Op>, w: Span): string
    requires w.from <= w.to < |ops|
  {
    PrintHeader(1 + |Before(ops[..w.from])|, |Before(ops[w.from..w.to + 1])|,
                1 + |After(ops[..w.from])|, |After(ops[w.from..w.to + 1])|)
  }

  function Sign(kind: Kind): char {
    match kind
    case Keep => ' '
    case Remove => '-'
    case Insert => '+'
  }

  function Printed(op: Op): string {
    [Sign(op.kind)] + op.text
  }

  function Body(ops: seq<Op>): (lines: seq<string>)
    ensures |lines| == |ops|
  {
    seq(|ops|, i requires 0 <= i < |ops| => Printed(ops[i]))
  }

  predicate WindowsIn(windows: seq<Span>, length: nat) {
    forall i :: 0 <= i < |windows| ==> windows[i].from <= windows[i].to < length
  }

  function Hunk(ops: seq<Op>, w: Span): (lines: seq<string>)
    requires w.from <= w.to < |ops|
    ensures |lines| == WindowLines(w)
  {
    [Header(ops, w)] + Body(ops[w.from..w.to + 1])
  }

  function HunkLines(ops: seq<Op>, windows: seq<Span>): seq<string>
    requires WindowsIn(windows, |ops|)
  {
    if windows == [] then []
    else Hunk(ops, windows[0]) + HunkLines(ops, windows[1..])
  }

  /** Every line of the patch. */
  function OutLines(ops: seq<Op>, maxLines: int): seq<string> {
    var plan := PlanOf(ops, maxLines);
    PlanIsSound(ops, maxLines);
    HunkLines(ops, plan.windows) + if plan.truncated then [NOTICE] else []
  }

  function Rendered(ops: seq<Op>, maxLines: int): string {
    Join(OutLines(ops, maxLines), "\n")
  }

  // ----- windows are disjoint, increasing, and cover every change

  ghost predicate Increasing(windows: seq<Span>) {
    forall i, j :: 0 <= i < j < |windows| ==> windows[i].to < windows[j].from
  }

  /** `some` is a leading part of `all`, its last window possibly cut at the end. */
  ghost predicate CutsShort(some: seq<Span>, all: seq<Span>) {
    && |some| <= |all|
    && (forall i :: 0 <= i < |some| ==> some[i].from == all[i].from && some[i].from <= some[i].to <= all[i].to)
    && (forall i :: 0 <= i < |some| - 1 ==> some[i] == all[i])
  }

  lemma {:induction false} PlanShape(groups: seq<Span>, length: nat, maxLines: int, used: nat)
    requires InScript(groups, length)
    ensures var plan := PlanFrom(groups, length, maxLines, used);
            && CutsShort(plan.windows, Windows(groups, length))
            && (!plan.truncated ==> plan.windows == Windows(groups, length))
  {
    if groups != [] {
      var w, rest := Window(groups[0], length), groups[1..];
      var plan := PlanFrom(rest, length, maxLines, used + WindowLines(w));
      PlanShape(rest, length, maxLines, used + WindowLines(w));
      assert Windows(groups, length) == [w] + Windows(rest, length);
    }
  }

  /** The windows of an uncut patch. */
  function Windows(groups: seq<Span>, length: nat): seq<Span>
    requires InScript(groups, length)
  {
    seq(|groups|, i requires 0 <= i < |groups| => Window(groups[i], length))
  }

  lemma NearIsCovered(changed: seq<nat>, groups: seq<Span>, length: nat, k: nat)
    requires k < length && InScript(groups, length)
    requires AllCovered(groups, changed) && Near(changed, k)
    ensures Covered(Windows(groups, length), k)
  {
    var c :| c in changed && k <= c + CONTEXT && c <= k + CONTEXT;
    assert Covered(groups, c);
    var i :| 0 <= i < |groups| && groups[i].from <= c <= groups[i].to;
    var w := Windows(groups, length)[i];
    assert w.from <= k <= w.to;
  }

  lemma CoveredIsNear(changed: seq<nat>, groups: seq<Span>, length: nat, k: nat)
    requires InScript(groups, length)
    requires Bounded(groups, changed) && AllNear(groups, changed)
    requires Covered(Windows(groups, length), k)
    ensures Near(changed, k)
  {
    var windows := Windows(groups, length);
    var i :| 0 <= i < |windows| && windows[i].from <= k <= windows[i].to;
    WindowIsNear(changed, groups[i], length, k);
  }

  lemma WindowIsNear(changed: seq<nat>, g: Span, length: nat, k: nat)
    requires g.from <= g.to < length && g.from in changed && g.to in changed
    requires forall j: nat :: g.from <= j <= g.to ==> Near(changed, j)
    requires Window(g, length).from <= k <= Window(g, length).to
    ensures Near(changed, k)
  {
    if k < g.from {
      assert k <= g.from + CONTEXT && g.from <= k + CONTEXT;
    } else if g.to < k {
      assert k <= g.to + CONTEXT && g.to <= k + CONTEXT;
    }
  }

  lemma GroupsInScript(ops: seq<Op>)
    ensures InScript(Groups(ChangedIndexes(ops)), |ops|) && Apart(Groups(ChangedIndexes(ops)))
  {
    GroupsShape(ChangedIndexes(ops));
  }

  /** Windows lie inside the script, disjoint and increasing. They hold only ops
      within three of a change, and an uncut patch holds all of those; a cut one
      holds the first of them. */
  lemma PlanIsSound(ops: seq<Op>, maxLines: int)
    ensures var plan := PlanOf(ops, maxLines);
            && WindowsIn(plan.windows, |ops|)
            && Increasing(plan.windows)
            && (forall k: nat :: Covered(plan.windows, k) ==> k < |ops| && Near(ChangedIndexes(ops), k))
            && (!plan.truncated ==>
                  forall k: nat :: k < |ops| && Near(ChangedIndexes(ops), k) ==> Covered(plan.windows, k))
            && (forall j: nat, k: nat :: j < k && Near(ChangedIndexes(ops), j) && Covered(plan.windows, k) ==>
                  Covered(plan.windows, j))
  {
    var changed, plan := ChangedIndexes(ops), PlanOf(ops, maxLines);
    var groups := Groups(changed);
    GroupsInScript(ops);
    var all := Windows(groups, |ops|);
    hide PlanFrom;
    hide Groups;
    hide Near;
    hide Covered;
    hide AllNear;
    hide Windows;
    GroupsShape(changed);
    PlanShape(groups, |ops|, maxLines, 0);
    WindowsIncrease(groups, |ops|);
    forall k: nat | k < |ops| ensures Near(changed, k) <==> Covered(all, k) {
      if Near(changed, k) {
        NearIsCovered(changed, groups, |ops|, k);
      }
      if Covered(all, k) {
        CoveredIsNear(changed, groups, |ops|, k);
      }
    }
    CutStaysIncreasing(plan.windows, all, |ops|);
    CutIsInitial(plan.windows, all, |ops|);
  }

  /** An uncut patch shows a kept line exactly when a change is at most three lines away. */
  lemma ShowsThreeLinesAround(ops: seq<Op>, maxLines: int, k: nat)
    requires !PlanOf(ops, maxLines).truncated && k < |ops|
    ensures Covered(PlanOf(ops, maxLines).windows, k) <==>
            exists c: nat :: c < |ops| && ops[c].kind != Keep && k <= c + 3 && c <= k + 3
  {
    hide PlanOf;
    PlanIsSound(ops, maxLines);
    var changed := ChangedIndexes(ops);
    if c: nat :| c < |ops| && ops[c].kind != Keep && k <= c + 3 && c <= k + 3 {
      assert c in changed;
      assert Near(changed, k);
    }
  }

  lemma PlanWindowsIn(ops: seq<Op>, maxLines: int)
    ensures WindowsIn(PlanOf(ops, maxLines).windows, |ops|)
  {
    PlanIsSound(ops, maxLines);
  }

  lemma CutStaysIncreasing(some: seq<Span>, all: seq<Span>, length: nat)
    requires CutsShort(some, all) && Increasing(all) && WindowsIn(all, length)
    ensures Increasing(some) && WindowsIn(some, length)
  {
  }

  lemma CutIsInitial(some: seq<Span>, all: seq<Span>, length: nat)
    requires CutsShort(some, all) && Increasing(all) && WindowsIn(some, length)
    ensures forall k: nat :: Covered(some, k) ==> k < length && Covered(all, k)
    ensures forall j: nat, k: nat :: j < k && Covered(all, j) && Covered(some, k) ==> Covered(some, j)
  {
    forall k: nat | Covered(some, k) ensures k < length && Covered(all, k) {
      var i :| 0 <= i < |some| && some[i].from <= k <= some[i].to;
      assert all[i].from <= k <= all[i].to;
    }
    forall j: nat, k: nat | j < k && Covered(all, j) && Covered(some, k) ensures Covered(some, j) {
      var i :| 0 <= i < |some| && some[i].from <= k <= some[i].to;
      var h :| 0 <= h < |all| && all[h].from <= j <= all[h].to;
      assert h <= i;
      assert some[h].from <= j <= some[h].to;
    }
  }

  lemma WindowsIncrease(groups: seq<Span>, length: nat)
    requires InScript(groups, length) && Apart(groups)
    ensures Increasing(Windows(groups, length)) && WindowsIn(Windows(groups, length), length)
  {
  }

  // ----- the size bound

  lemma PlanStep(groups: seq<Span>, length: nat, maxLines: int, used: nat)
    requires InScript(groups, length) && groups != [] && Room(maxLines, used) > 0
    ensures var w := Fit(Window(groups[0], length), Room(maxLines, used));
            PlanFrom(groups, length, maxLines, used) ==
            if w != Window(groups[0], length) then Plan([w], true)
            else var rest := PlanFrom(groups[1..], length, maxLines, used + WindowLines(w));
                 Plan([w] + rest.windows, rest.truncated)
  {
  }

  lemma {:induction false} HunkLinesSize(ops: seq<Op>, groups: seq<Span>, maxLines: int, used: nat)
    requires InScript(groups, |ops|) && Apart(groups)
    requires WindowsIn(PlanFrom(groups, |ops|, maxLines, used).windows, |ops|)
    ensures var plan := PlanFrom(groups, |ops|, maxLines, used);
            var size := used + |HunkLines(ops, plan.windows)|;
            && (used < maxLines ==> size < maxLines)
            && (groups != [] && !plan.truncated ==> plan.windows != [])
            && (maxLines <= 0 && groups != [] ==> plan == Plan([], true))
  {
    hide Window;
    hide Fit;
    hide Hunk;
    if groups != [] && Room(maxLines, used) > 0 {
      PlanStep(groups, |ops|, maxLines, used);
      var plan := PlanFrom(groups, |ops|, maxLines, used);
      var w := plan.windows[0];
      assert |Hunk(ops, w)| == WindowLines(w);
      if w == Window(groups[0], |ops|) {
        FitIsRoomy(groups[0], |ops|, Room(maxLines, used));
        assert plan.windows[1..] == PlanFrom(groups[1..], |ops|, maxLines, used + WindowLines(w)).windows;
        HunkLinesSize(ops, groups[1..], maxLines, used + WindowLines(w));
      } else {
        FitIsRoomy(groups[0], |ops|, Room(maxLines, used));
        assert plan.windows[1..] == [];
      }
    }
  }

  /** A window cut to the room takes no more than it, its header aside. */
  lemma FitIsRoomy(group: Span, length: nat, room: int)
    requires group.from <= group.to < length && room > 0
    ensures var w := Fit(Window(group, length), room); WindowLines(w) <= room + 1
  {
  }

  /** The patch, its truncation notice included, never exceeds `maxLines` lines --
      unless the caller allowed none at all and there is something to print. */
  lemma SizeIsBounded(ops: seq<Op>, maxLines: int)
    ensures |OutLines(ops, maxLines)| <= maxLines <==> (maxLines >= 1 || (maxLines == 0 && Changes(ops) == 0))
    ensures OutLines(ops, maxLines) == [] <==> Changes(ops) == 0
  {
    var changed := ChangedIndexes(ops);
    GroupsShape(changed);
    PlanIsSound(ops, maxLines);
    HunkLinesSize(ops, Groups(changed), maxLines, 0);
    NoChangesMeansNoIndexes(ops);
    var plan := PlanOf(ops, maxLines);
    if plan.windows != [] {
      assert |Hunk(ops, plan.windows[0])| > 0;
    }
  }

  lemma SizeStep(ops: seq<Op>, windows: seq<Span>)
    requires windows != [] && WindowsIn(windows, |ops|)
    ensures |HunkLines(ops, windows)| == WindowLines(windows[0]) + |HunkLines(ops, windows[1..])|
  {
    hide Hunk;
  }

  lemma WindowsStep(groups: seq<Span>, length: nat)
    requires groups != [] && InScript(groups, length)
    ensures Windows(groups, length) == [Window(groups[0], length)] + Windows(groups[1..], length)
  {
    hide Window;
  }

  lemma FitIsExact(w: Span, room: int)
    requires room > 0 && w.from <= w.to
    ensures Fit(w, room) == w <==> WindowLines(w) <= room + 1
    ensures Fit(w, room) != w ==> WindowLines(Fit(w, room)) == room + 1
  {
  }

  /** What a plan leaves out of the budget: nothing is cut that still fits, and a cut
      one stops at most one line short of it, the notice counted. */
  ghost predicate Fills(ops: seq<Op>, groups: seq<Span>, maxLines: int, used: nat)
    requires InScript(groups, |ops|)
    requires WindowsIn(PlanFrom(groups, |ops|, maxLines, used).windows, |ops|) && WindowsIn(Windows(groups, |ops|), |ops|)
  {
    var plan := PlanFrom(groups, |ops|, maxLines, used);
    && (!plan.truncated <==> groups == [] || used + |HunkLines(ops, Windows(groups, |ops|))| < maxLines)
    && (plan.truncated ==> used + |HunkLines(ops, plan.windows)| + 1 >= maxLines - 1)
  }

  lemma {:induction false} PlanFills(ops: seq<Op>, groups: seq<Span>, maxLines: int, used: nat)
    requires InScript(groups, |ops|)
    requires WindowsIn(PlanFrom(groups, |ops|, maxLines, used).windows, |ops|) && WindowsIn(Windows(groups, |ops|), |ops|)
    ensures Fills(ops, groups, maxLines, used)
  {
    hide Hunk;
    hide HunkLines;
    hide Window;
    hide Fit;
    hide Windows;
    var all := Windows(groups, |ops|);
    if groups == [] {
    } else if Room(maxLines, used) <= 0 {
      WindowsStep(groups, |ops|);
      SizeStep(ops, all);
    } else {
      hide PlanFrom;
      var w, rest := Window(groups[0], |ops|), groups[1..];
      WindowsStep(groups, |ops|);
      SizeStep(ops, all);
      assert all[1..] == Windows(rest, |ops|);
      PlanStep(groups, |ops|, maxLines, used);
      FitIsExact(w, Room(maxLines, used));
      var plan := PlanFrom(groups, |ops|, maxLines, used);
      SizeStep(ops, plan.windows);
      if plan.windows[0] == w {
        assert plan.windows[1..] == PlanFrom(rest, |ops|, maxLines, used + WindowLines(w)).windows;
        PlanFills(ops, rest, maxLines, used + WindowLines(w));
        NoWindowsNoLines(ops, rest);
      }
    }
  }

  lemma NoWindowsNoLines(ops: seq<Op>, groups: seq<Span>)
    requires InScript(groups, |ops|) && WindowsIn(Windows(groups, |ops|), |ops|)
    ensures groups == [] ==> HunkLines(ops, Windows(groups, |ops|)) == []
  {
  }

  /** A patch is cut only when the whole one, as any larger budget prints it, has no
      line to spare for a notice; and what a cut one prints uses the budget up. */
  lemma CutOnlyWhenItMust(ops: seq<Op>, maxLines: int, larger: int)
    requires Changes(ops) > 0 && !PlanOf(ops, larger).truncated
    ensures PlanOf(ops, maxLines).truncated <==> |OutLines(ops, larger)| >= maxLines
    ensures PlanOf(ops, maxLines).truncated && maxLines >= 1 ==> maxLines - 1 <= |OutLines(ops, maxLines)| <= maxLines
  {
    var groups := Groups(ChangedIndexes(ops));
    NoChangesMeansNoIndexes(ops);
    GroupsShape(ChangedIndexes(ops));
    SizeIsBounded(ops, maxLines);
    hide Changes;
    hide ChangedIndexes;
    hide Groups;
    hide PlanFrom;
    hide HunkLines;
    PlanIsSound(ops, maxLines);
    PlanIsSound(ops, larger);
    GroupsInScript(ops);
    WindowsIncrease(groups, |ops|);
    PlanShape(groups, |ops|, larger, 0);
    PlanFills(ops, groups, maxLines, 0);
  }

  /** And some budget cuts nothing. */
  lemma SomeBudgetIsEnough(ops: seq<Op>) returns (larger: nat)
    ensures !PlanOf(ops, larger).truncated
  {
    var groups := Groups(ChangedIndexes(ops));
    GroupsShape(ChangedIndexes(ops));
    GroupsInScript(ops);
    WindowsIncrease(groups, |ops|);
    larger := 1 + |HunkLines(ops, Windows(groups, |ops|))|;
    PlanIsSound(ops, larger);
    PlanFills(ops, groups, larger, 0);
  }

  lemma {:induction false} NoChangesMeansNoIndexes(ops: seq<Op>)
    ensures Changes(ops) == 0 <==> ChangedIndexes(ops) == []
  {
    if ops != [] {
      var last := |ops| - 1;
      NoChangesMeansNoIndexes(ops[..last]);
      assert ops == ops[..last] + [ops[last]];
      Projections(ops[..last], [ops[last]]);
    }
  }

  // ----- the procedures

  lemma PrefixStep(ops: seq<Op>, i: nat, j: nat)
    requires i <= j < |ops|
    ensures Before(ops[i..j + 1]) == Before(ops[i..j]) + if ops[j].kind == Insert then [] else [ops[j].text]
    ensures After(ops[i..j + 1]) == After(ops[i..j]) + if ops[j].kind == Remove then [] else [ops[j].text]
  {
    assert ops[i..j + 1] == ops[i..j] + [ops[j]];
    Projections(ops[i..j], [ops[j]]);
  }

  /** How many lines of each side `ops[from..to]` holds. */
  method CountSides(ops: seq<Op>, from: nat, to: nat) returns (oldCount: nat, newCount: nat)
    requires from <= to <= |ops|
    ensures oldCount == |Before(ops[from..to])| && newCount == |After(ops[from..to])|
  {
    oldCount, newCount := 0, 0;
    for index := from to to
      invariant oldCount == |Before(ops[from..index])| && newCount == |After(ops[from..index])|
    {
      PrefixStep(ops, from, index);
      if ops[index].kind != Insert { oldCount := oldCount + 1; }
      if ops[index].kind != Remove { newCount := newCount + 1; }
    }
  }

  method GroupChanges(changed: seq<nat>) returns (groups: seq<Span>)
    ensures groups == Groups(changed)
  {
    groups := [];
    for k := 0 to |changed|
      invariant groups == Groups(changed[..k])
    {
      assert changed[..k + 1][..k] == changed[..k];
      var index := changed[k];
      if groups != [] && index - groups[|groups| - 1].to <= CONTEXT * 2 {
        groups := groups[|groups| - 1 := groups[|groups| - 1].(to := index)];
      } else {
        groups := groups + [Span(index, index)];
      }
    }
    assert changed[..|changed|] == changed;
  }

  method PrintHunk(ops: seq<Op>, w: Span) returns (lines: seq<string>)
    requires w.from <= w.to < |ops|
    ensures lines == Hunk(ops, w)
  {
    hide PrintHeader;
    hide Decimal;
    hide Before;
    hide After;
    hide Body;
    hide Printed;
    var oldBefore, newBefore := CountSides(ops, 0, w.from);
    var oldCount, newCount := CountSides(ops, w.from, w.to + 1);
    assert ops[0..w.from] == ops[..w.from];
    lines := [PrintHeader(1 + oldBefore, oldCount, 1 + newBefore, newCount)];
    hide Header;
    BodyStarts(ops, w.from);
    for index := w.from to w.to + 1
      invariant lines == [Header(ops, w)] + Body(ops[w.from..index])
    {
      BodyGrows(ops, w.from, index);
      lines := lines + [Printed(ops[index])];
    }
  }

  lemma BodyStarts(ops: seq<Op>, from: nat)
    requires from <= |ops|
    ensures Body(ops[from..from]) == []
  {
  }

  lemma BodyGrows(ops: seq<Op>, from: nat, index: nat)
    requires from <= index < |ops|
    ensures Body(ops[from..index + 1]) == Body(ops[from..index]) + [Printed(ops[index])]
  {
    hide Printed;
  }

  /** `out` holds the windows of the groups before `k`; `rest` of the plan is to come. */
  ghost predicate Progress(ops: seq<Op>, groups: seq<Span>, maxLines: int, k: nat, out: seq<string>, truncated: bool)
    requires InScript(groups, |ops|) && k <= |groups|
  {
    var plan := PlanFrom(groups, |ops|, maxLines, 0);
    var rest := if truncated then Plan([], true) else PlanFrom(groups[k..], |ops|, maxLines, |out|);
    && WindowsIn(plan.windows, |ops|) && WindowsIn(rest.windows, |ops|)
    && plan.truncated == rest.truncated
    && HunkLines(ops, plan.windows) == out + HunkLines(ops, rest.windows)
  }

  lemma ProgressStarts(ops: seq<Op>, groups: seq<Span>, maxLines: int)
    requires InScript(groups, |ops|)
    requires WindowsIn(PlanFrom(groups, |ops|, maxLines, 0).windows, |ops|)
    ensures Progress(ops, groups, maxLines, 0, [], false)
  {
    assert groups[0..] == groups;
  }

  lemma ProgressStops(ops: seq<Op>, groups: seq<Span>, maxLines: int, k: nat, out: seq<string>)
    requires InScript(groups, |ops|) && k < |groups|
    requires Progress(ops, groups, maxLines, k, out, false)
    requires Room(maxLines, |out|) <= 0
    ensures Progress(ops, groups, maxLines, k, out, true)
  {
  }

  lemma ProgressContinues(ops: seq<Op>, groups: seq<Span>, maxLines: int, k: nat, out: seq<string>, w: Span)
    requires InScript(groups, |ops|) && k < |groups|
    requires Progress(ops, groups, maxLines, k, out, false)
    requires Room(maxLines, |out|) > 0 && w == Fit(Window(groups[k], |ops|), Room(maxLines, |out|))
    ensures Progress(ops, groups, maxLines, k + 1, out + Hunk(ops, w), w != Window(groups[k], |ops|))
  {
    hide PlanFrom;
    hide Window;
    hide Fit;
    hide HunkLines;
    hide Hunk;
    hide WindowsIn;
    hide Room;
    PlanStep(groups[k..], |ops|, maxLines, |out|);
    assert groups[k..][0] == groups[k] && groups[k..][1..] == groups[k + 1..];
    if w == Window(groups[k], |ops|) {
      ConsStep(ops, w, PlanFrom(groups[k + 1..], |ops|, maxLines, |out| + WindowLines(w)).windows, out);
    } else {
      assert [w] + [] == [w];
      ConsStep(ops, w, [], out);
    }
  }

  lemma ConsStep(ops: seq<Op>, w: Span, rest: seq<Span>, out: seq<string>)
    requires WindowsIn([w] + rest, |ops|)
    ensures WindowsIn(rest, |ops|) && w.from <= w.to < |ops|
    ensures out + HunkLines(ops, [w] + rest) == out + Hunk(ops, w) + HunkLines(ops, rest)
  {
    hide Hunk;
    assert ([w] + rest)[0] == w && ([w] + rest)[1..] == rest;
    HunkLinesStep(ops, [w] + rest, out);
  }

  lemma ProgressEnds(ops: seq<Op>, groups: seq<Span>, maxLines: int, k: nat, out: seq<string>, truncated: bool)
    requires InScript(groups, |ops|) && k <= |groups| && (truncated || k == |groups|)
    requires Progress(ops, groups, maxLines, k, out, truncated)
    ensures var plan := PlanFrom(groups, |ops|, maxLines, 0);
            WindowsIn(plan.windows, |ops|) && plan.truncated == truncated && HunkLines(ops, plan.windows) == out
  {
    PlanEnd(groups, k, |ops|, maxLines, |out|);
    assert out + HunkLines(ops, []) == out;
  }

  lemma RenderedIsJoin(ops: seq<Op>, maxLines: int)
    ensures var groups := Groups(ChangedIndexes(ops));
            InScript(groups, |ops|) &&
            var plan := PlanFrom(groups, |ops|, maxLines, 0);
            && WindowsIn(plan.windows, |ops|)
            && (ChangedIndexes(ops) == [] ==> Rendered(ops, maxLines) == "")
            && Rendered(ops, maxLines) == Join(HunkLines(ops, plan.windows) + if plan.truncated then [NOTICE] else [], "\n")
  {
    GroupsInScript(ops);
    PlanWindowsIn(ops, maxLines);
  }

  /** One round of the printing loop: a hunk, whole or cut, or no room for one. */
  method PrintGroup(ops: seq<Op>, groups: seq<Span>, maxLines: int, k: nat, out: seq<string>)
    returns (printed: seq<string>, next: nat, truncated: bool)
    requires InScript(groups, |ops|) && k < |groups|
    requires Progress(ops, groups, maxLines, k, out, false)
    ensures k <= next <= |groups| && (next == k ==> truncated)
    ensures Progress(ops, groups, maxLines, next, printed, truncated)
  {
    hide Progress;
    hide PlanFrom;
    var room := Room(maxLines, |out|);
    if room <= 0 {
      ProgressStops(ops, groups, maxLines, k, out);
      return out, k, true;
    }
    var window := Window(groups[k], |ops|);
    var w := Fit(window, room);
    ProgressContinues(ops, groups, maxLines, k, out, w);
    var lines := PrintHunk(ops, w);
    return out + lines, k + 1, w != window;
  }

  method ToHunks(ops: seq<Op>, maxLines: int) returns (text: string)
    ensures text == Rendered(ops, maxLines)
  {
    hide Rendered;
    var changed := ChangedIndexes(ops);
    RenderedIsJoin(ops, maxLines);
    if changed == [] {
      return "";
    }
    hide Groups;
    hide Join;
    hide PlanFrom;
    hide HunkLines;
    hide Progress;
    var groups := GroupChanges(changed);
    var out, truncated, k := [], false, 0;
    ProgressStarts(ops, groups, maxLines);
    while k < |groups| && !truncated
      invariant k <= |groups| && Progress(ops, groups, maxLines, k, out, truncated)
      decreases |groups| - k, !truncated
    {
      out, k, truncated := PrintGroup(ops, groups, maxLines, k, out);
    }
    ProgressEnds(ops, groups, maxLines, k, out, truncated);
    if truncated {
      out := out + [NOTICE];
    } else {
      assert out + [] == out;
    }
    text := Join(out, "\n");
  }

  lemma PlanEnd(groups: seq<Span>, k: nat, length: nat, maxLines: int, used: nat)
    requires InScript(groups, length) && k <= |groups|
    ensures k == |groups| ==> PlanFrom(groups[k..], length, maxLines, used) == Plan([], false)
  {
  }

  lemma HunkLinesStep(ops: seq<Op>, windows: seq<Span>, out: seq<string>)
    requires windows != [] && WindowsIn(windows, |ops|)
    ensures WindowsIn(windows[1..], |ops|)
    ensures out + HunkLines(ops, windows) == out + Hunk(ops, windows[0]) + HunkLines(ops, windows[1..])
  {
  }

  const DEFAULT_MAX_LINES := 400

  function Patch(before: string, after: string, maxLines: int): string {
    Rendered(Script(Lines(before), Lines(after)), maxLines)
  }

  /** `unifiedDiff`: empty exactly when nothing changed between the two line lists. */
  method Unified(before: string, after: string, maxLines: int := DEFAULT_MAX_LINES) returns (patch: string)
    ensures patch == Patch(before, after, maxLines)
    ensures WithinLimit(Lines(before), Lines(after)) ==> (patch == "" <==> Lines(before) == Lines(after))
  {
    var ops := EditScript(Lines(before), Lines(after));
    patch := ToHunks(ops, maxLines);
    PatchIsEmptyIffEqual(before, after, maxLines);
  }

  /** An empty patch means equal texts, line by line; the other way round fails
      only for equal texts past the size limit, which print as replaced. */
  lemma PatchIsEmptyIffEqual(before: string, after: string, maxLines: int)
    ensures Patch(before, after, maxLines) == "" <==>
            Lines(before) == Lines(after) && |Lines(before)| <= LCS_MAX_LINES
  {
    var b, a := Lines(before), Lines(after);
    var ops := Script(b, a);
    NoChangesIffEqual(b, a);
    SizeIsBounded(ops, maxLines);
    var out := OutLines(ops, maxLines);
    if out != [] {
      FirstLineIsNotEmpty(ops, maxLines);
    }
  }

  lemma FirstLineIsNotEmpty(ops: seq<Op>, maxLines: int)
    requires OutLines(ops, maxLines) != []
    ensures OutLines(ops, maxLines)[0] != ""
    ensures Rendered(ops, maxLines) != ""
  {
    PlanIsSound(ops, maxLines);
    var plan := PlanOf(ops, maxLines);
    if plan.windows != [] {
      assert OutLines(ops, maxLines)[0] == Header(ops, plan.windows[0]);
    }
  }

  // ----- the changed-line ratio

  function Longer(a: seq<string>, b: seq<string>): nat {
    if |a| >= |b| then |a| else |b|
  }

  function Share(part: int, whole: nat): real
    requires whole > 0
  {
    part as real / whole as real
  }

  /** The share of the longer side that is not common to both. */
  function Ratio(before: seq<string>, after: seq<string>): real {
    var span := Longer(before, after);
    if span == 0 then 0.0
    else Share(span - if WithinLimit(before, after) then Lcs(before, after) else 0, span)
  }

  method ChangedLineRatio(before: string, after: string) returns (ratio: real)
    ensures ratio == Ratio(Lines(before), Lines(after))
  {
    var from, to := Lines(before), Lines(after);
    var span := Longer(from, to);
    if span == 0 {
      return 0.0;
    }
    hide Ratio;
    hide Common;
    var script := EditScript(from, to);
    RatioOfScript(from, to);
    return Clamp01(Share(span - |Kept(script)|, span));
  }

  lemma RatioOfScript(from: seq<string>, to: seq<string>)
    requires Longer(from, to) > 0
    ensures Clamp01(Share(Longer(from, to) - |Kept(Script(from, to))|, Longer(from, to))) == Ratio(from, to)
  {
    hide Script;
    hide Lcs;
    hide Share;
    hide Before;
    hide After;
    hide Kept;
    ScriptIsOptimal(from, to);
    RatioIsBounded(from, to);
  }

  lemma LcsIsShort(a: seq<string>, b: seq<string>)
    ensures Lcs(a, b) <= |a| && Lcs(a, b) <= |b|
    ensures Lcs(a, b) == |a| == |b| <==> a == b
  {
    LcsIsAttained(a, b);
    SubsequenceIsShorter(Kept(Walk(a, b)), a);
    SubsequenceIsShorter(Kept(Walk(a, b)), b);
    if a == b {
      SubsequenceOfItself(a);
      LcsIsUpperBound(a, a, b);
    }
  }

  /** The ratio needs no clamp, does not depend on which text comes first, and
      within the size limit is zero exactly for equal line lists. */
  lemma RatioIsBounded(before: seq<string>, after: seq<string>)
    ensures 0.0 <= Ratio(before, after) <= 1.0
    ensures Ratio(before, after) == Ratio(after, before)
    ensures Ratio(before, after) == 0.0 <==> before == after && |before| <= LCS_MAX_LINES
  {
    LcsIsSymmetric(before, after);
    LcsIsShort(before, after);
    var span := Longer(before, after);
    if span > 0 {
      var kept := if WithinLimit(before, after) then Lcs(before, after) else 0;
      QuotientInUnit(span - kept, span);
    }
  }

  /** The ratio counts the lines of the longer side that a longest common subsequence
      leaves out; past the size limit, all of them. */
  lemma RatioCountsTheUncommon(before: seq<string>, after: seq<string>, common: seq<string>)
    requires before != [] || after != []
    ensures var longer := if |before| >= |after| then |before| else |after|;
            if |before| <= 2000 && |after| <= 2000
            then Longest(common, before, after) ==> Ratio(before, after) * longer as real == (longer - |common|) as real
            else Ratio(before, after) == 1.0
  {
    hide Lcs;
    hide Longest;
    hide Share;
    var span := Longer(before, after);
    if !WithinLimit(before, after) {
      ShareTimesWhole(span, span);
    } else if Longest(common, before, after) {
      LongestHasLcs(common, before, after);
      ShareTimesWhole(span - |common|, span);
    }
  }

  lemma ShareTimesWhole(part: int, whole: nat)
    requires whole > 0
    ensures Share(part, whole) * whole as real == part as real
    ensures part == whole ==> Share(part, whole) == 1.0
  {
  }

  lemma QuotientInUnit(part: nat, whole: nat)
    requires part <= whole && whole > 0
    ensures 0.0 <= Share(part, whole) <= 1.0
    ensures Share(part, whole) == 0.0 <==> part == 0
  {
  }
}
