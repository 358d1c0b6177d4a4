/** Scripts of kept, removed and inserted lines, and the shortest one between two
    texts: `editScript` in packages/shared/src/diff.ts. */
module EditScripts {

  const LCS_MAX_LINES := 2000

  datatype Kind = Keep | Remove | Insert

  datatype Op = Op(kind: Kind, text: string)

  // ----- what a script means

  /** The lines left when insertions are dropped. */
  function Before(ops: seq<Op>): seq<string> {
    if ops == [] then []
    else (if ops[0].kind == Insert then [] else [ops[0].text]) + Before(ops[1..])
  }

  /** The lines left when removals are dropped. */
  function After(ops: seq<Op>): seq<string> {
    if ops == [] then []
    else (if ops[0].kind == Remove then [] else [ops[0].text]) + After(ops[1..])
  }

  function Kept(ops: seq<Op>): (lines: seq<string>)
    ensures |lines| <= |ops|
  {
    if ops == [] then []
    else (if ops[0].kind == Keep then [ops[0].text] else []) + Kept(ops[1..])
  }

  /** How many lines a script adds or removes. */
  function Changes(ops: seq<Op>): nat {
    |ops| - |Kept(ops)|
  }

  ghost predicate Transforms(ops: seq<Op>, before: seq<string>, after: seq<string>) {
    Before(ops) == before && After(ops) == after
  }

  lemma Reassociate(x: seq<string>, y: seq<string>, z: seq<string>)
    ensures x + (y + z) == (x + y) + z
  {
  }

  lemma {:induction false} BeforeOfConcat(a: seq<Op>, b: seq<Op>)
    ensures Before(a + b) == Before(a) + Before(b)
  {
    if a == [] {
      assert a + b == b;
    } else {
      BeforeOfConcat(a[1..], b);
      var first := if a[0].kind == Insert then [] else [a[0].text];
      assert (a + b)[0] == a[0] && (a + b)[1..] == a[1..] + b;
      Reassociate(first, Before(a[1..]), Before(b));
    }
  }

  lemma {:induction false} AfterOfConcat(a: seq<Op>, b: seq<Op>)
    ensures After(a + b) == After(a) + After(b)
  {
    if a == [] {
      assert a + b == b;
    } else {
      AfterOfConcat(a[1..], b);
      var first := if a[0].kind == Remove then [] else [a[0].text];
      assert (a + b)[0] == a[0] && (a + b)[1..] == a[1..] + b;
      Reassociate(first, After(a[1..]), After(b));
    }
  }

  lemma {:induction false} KeptOfConcat(a: seq<Op>, b: seq<Op>)
    ensures Kept(a + b) == Kept(a) + Kept(b)
  {
    if a == [] {
      assert a + b == b;
    } else {
      KeptOfConcat(a[1..], b);
      var first := if a[0].kind != Keep then [] else [a[0].text];
      assert (a + b)[0] == a[0] && (a + b)[1..] == a[1..] + b;
      Reassociate(first, Kept(a[1..]), Kept(b));
    }
  }

  lemma Projections(a: seq<Op>, b: seq<Op>)
    ensures Before(a + b) == Before(a) + Before(b)
    ensures After(a + b) == After(a) + After(b)
    ensures Kept(a + b) == Kept(a) + Kept(b)
  {
    BeforeOfConcat(a, b);
    AfterOfConcat(a, b);
    KeptOfConcat(a, b);
  }

  function Tagged(kind: Kind, texts: seq<string>): (ops: seq<Op>)
    ensures |ops| == |texts|
  {
    seq(|texts|, i requires 0 <= i < |texts| => Op(kind, texts[i]))
  }

  lemma {:induction false} TaggedProjections(kind: Kind, texts: seq<string>)
    ensures Before(Tagged(kind, texts)) == if kind == Insert then [] else texts
    ensures After(Tagged(kind, texts)) == if kind == Remove then [] else texts
    ensures Kept(Tagged(kind, texts)) == if kind == Keep then texts else []
  {
    if texts != [] {
      TaggedProjections(kind, texts[1..]);
      assert Tagged(kind, texts)[1..] == Tagged(kind, texts[1..]);
      assert texts == [texts[0]] + texts[1..];
    }
  }

  lemma {:induction false} KeptBounds(ops: seq<Op>)
    ensures |Kept(ops)| <= |ops|
    ensures |Before(ops)| + |After(ops)| == |ops| + |Kept(ops)|
  {
    if ops != [] {
      KeptBounds(ops[1..]);
    }
  }

  // ----- common subsequences

  ghost predicate Subsequence(s: seq<string>, a: seq<string>) {
    s == []
    || (a != [] && ((s[0] == a[0] && Subsequence(s[1..], a[1..])) || Subsequence(s, a[1..])))
  }

  ghost predicate Common(s: seq<string>, a: seq<string>, b: seq<string>) {
    Subsequence(s, a) && Subsequence(s, b)
  }

  /** `s` is common to both lists and nothing common to both is longer. */
  ghost predicate Longest(s: seq<string>, a: seq<string>, b: seq<string>) {
    Common(s, a, b) && forall t :: Common(t, a, b) ==> |t| <= |s|
  }

  lemma {:induction false} DropHead(s: seq<string>, a: seq<string>)
    requires s != [] && Subsequence(s, a)
    ensures a != [] && Subsequence(s[1..], a[1..])
    decreases |a|
  {
    if !(s[0] == a[0] && Subsequence(s[1..], a[1..])) {
      DropHead(s, a[1..]);
      Weaken(s[1..], a[1..]);
    }
  }

  lemma Weaken(s: seq<string>, a: seq<string>)
    requires a != [] && Subsequence(s, a[1..])
    ensures Subsequence(s, a)
  {
  }

  /** Appending one line to both sides appends it to the subsequence. */
  lemma {:induction false} AppendLast(s: seq<string>, a: seq<string>, x: string)
    requires Subsequence(s, a)
    ensures Subsequence(s + [x], a + [x])
    decreases |a|
  {
    if a == [] {
      assert (s + [x])[1..] == [] && (a + [x])[1..] == [];
    } else {
      assert (a + [x])[1..] == a[1..] + [x];
      if s == [] {
        AppendLast(s, a[1..], x);
      } else if s[0] == a[0] && Subsequence(s[1..], a[1..]) {
        AppendLast(s[1..], a[1..], x);
        assert (s + [x])[1..] == s[1..] + [x];
      } else {
        AppendLast(s, a[1..], x);
      }
    }
  }

  /** A subsequence of `a + [x]` without its last line is one of `a`. */
  lemma {:induction false} DropLast(s: seq<string>, a: seq<string>, x: string)
    requires s != [] && Subsequence(s, a + [x])
    ensures Subsequence(s[..|s| - 1], a)
    decreases |a|
  {
    var init := s[..|s| - 1];
    if a == [] {
      assert (a + [x])[1..] == [];
      assert !Subsequence(s, []);
      assert Subsequence(s[1..], []);
      assert s[1..] == [];
    } else if init != [] {
      assert (a + [x])[1..] == a[1..] + [x];
      if s[0] == a[0] && Subsequence(s[1..], a[1..] + [x]) {
        DropLast(s[1..], a[1..], x);
        assert s[1..][..|s| - 2] == init[1..];
      } else {
        DropLast(s, a[1..], x);
      }
    }
  }

  lemma {:induction false} SubsequenceOfItself(a: seq<string>)
    ensures Subsequence(a, a)
  {
    if a != [] {
      SubsequenceOfItself(a[1..]);
    }
  }

  lemma {:induction false} SubsequenceIsShorter(s: seq<string>, a: seq<string>)
    requires Subsequence(s, a)
    ensures |s| <= |a|
    ensures |s| == |a| ==> s == a
    decreases |a|
  {
    if s != [] {
      DropHead(s, a);
      SubsequenceIsShorter(s[1..], a[1..]);
      if |s| == |a| {
        if !(s[0] == a[0] && Subsequence(s[1..], a[1..])) {
          SubsequenceIsShorter(s, a[1..]);
        }
        assert s == [s[0]] + s[1..] && a == [a[0]] + a[1..];
      }
    }
  }

  /** Whatever a script keeps is common to both sides. */
  lemma {:induction false} KeptIsCommon(ops: seq<Op>)
    ensures Common(Kept(ops), Before(ops), After(ops))
  {
    if ops != [] {
      KeptIsCommon(ops[1..]);
      var kept, before, after := Kept(ops[1..]), Before(ops[1..]), After(ops[1..]);
      match ops[0].kind
      case Keep =>
        assert Kept(ops)[1..] == kept && Before(ops)[1..] == before && After(ops)[1..] == after;
      case Remove =>
        assert Kept(ops) == kept && Before(ops)[1..] == before && After(ops) == after;
      case Insert =>
        assert Kept(ops) == kept && Before(ops) == before && After(ops)[1..] == after;
    }
  }

  // ----- the table

  /** What the dynamic-programming table holds: the length of the longest common subsequence. */
  function Lcs(a: seq<string>, b: seq<string>): nat
    decreases |a| + |b|
  {
    if a == [] || b == [] then 0
    else if a[0] == b[0] then Lcs(a[1..], b[1..]) + 1
    else if Lcs(a[1..], b) >= Lcs(a, b[1..]) then Lcs(a[1..], b) else Lcs(a, b[1..])
  }

  /** Nothing common to both sides is longer than `Lcs`. */
  lemma {:induction false} LcsIsUpperBound(s: seq<string>, a: seq<string>, b: seq<string>)
    requires Common(s, a, b)
    ensures |s| <= Lcs(a, b)
    decreases |a| + |b|
  {
    if s != [] {
      if a[0] == b[0] {
        DropHead(s, a);
        DropHead(s, b);
        LcsIsUpperBound(s[1..], a[1..], b[1..]);
      } else if s[0] != a[0] {
        LcsIsUpperBound(s, a[1..], b);
      } else {
        LcsIsUpperBound(s, a, b[1..]);
      }
    }
  }

  // ----- the script

  /** The walk through the table: keep on a match, else follow the larger neighbour, removals first. */
  function Walk(before: seq<string>, after: seq<string>): seq<Op>
    decreases |before| + |after|
  {
    if before == [] then Tagged(Insert, after)
    else if after == [] then Tagged(Remove, before)
    else if before[0] == after[0] then [Op(Keep, before[0])] + Walk(before[1..], after[1..])
    else if Lcs(before[1..], after) >= Lcs(before, after[1..])
    then [Op(Remove, before[0])] + Walk(before[1..], after)
    else [Op(Insert, after[0])] + Walk(before, after[1..])
  }

  /** `n` is how many leading lines the two lists share. */
  ghost predicate SharedHead(a: seq<string>, b: seq<string>, n: nat) {
    && n <= |a| && n <= |b|
    && (forall i :: 0 <= i < n ==> a[i] == b[i])
    && (n < |a| && n < |b| ==> a[n] != b[n])
  }

  /** Lines at most `n` from the end agree. */
  ghost predicate SameEnds(a: seq<string>, b: seq<string>, n: nat) {
    forall i, j :: 0 <= i < |a| && 0 <= j < |b| && |a| - i == |b| - j <= n ==> a[i] == b[j]
  }

  /** `n` is how many trailing lines the two lists share. */
  ghost predicate SharedTail(a: seq<string>, b: seq<string>, n: nat) {
    && n <= |a| && n <= |b|
    && SameEnds(a, b, n)
    && (n < |a| && n < |b| ==> a[|a| - 1 - n] != b[|b| - 1 - n])
  }

  function CommonHead(a: seq<string>, b: seq<string>): (n: nat)
    ensures SharedHead(a, b, n)
  {
    if a != [] && b != [] && a[0] == b[0] then 1 + CommonHead(a[1..], b[1..]) else 0
  }

  function CommonTail(a: seq<string>, b: seq<string>): (n: nat)
    ensures SharedTail(a, b, n)
  {
    if a != [] && b != [] && a[|a| - 1] == b[|b| - 1]
    then 1 + CommonTail(a[..|a| - 1], b[..|b| - 1])
    else 0
  }

  predicate WithinLimit(before: seq<string>, after: seq<string>) {
    |before| <= LCS_MAX_LINES && |after| <= LCS_MAX_LINES
  }

  /** The script `editScript` returns. */
  function Script(before: seq<string>, after: seq<string>): seq<Op> {
    if !WithinLimit(before, after) then Tagged(Remove, before) + Tagged(Insert, after)
    else
      var head := CommonHead(before, after);
      var tail := CommonTail(before[head..], after[head..]);
      Around(before, Walk(before[head..|before| - tail], after[head..|after| - tail]), head, tail)
  }

  /** The script of the middle between the shared head and tail. */
  function Around(before: seq<string>, middle: seq<Op>, head: nat, tail: nat): seq<Op>
    requires head + tail <= |before|
  {
    Tagged(Keep, before[..head]) + middle + Tagged(Keep, before[|before| - tail..])
  }

  lemma {:induction false} WalkIsOptimal(before: seq<string>, after: seq<string>)
    ensures Transforms(Walk(before, after), before, after)
    ensures |Kept(Walk(before, after))| == Lcs(before, after)
    decreases |before| + |after|
  {
    if before == [] {
      TaggedProjections(Insert, after);
    } else if after == [] {
      TaggedProjections(Remove, before);
    } else {
      assert before == [before[0]] + before[1..] && after == [after[0]] + after[1..];
      if before[0] == after[0] {
        WalkIsOptimal(before[1..], after[1..]);
      } else if Lcs(before[1..], after) >= Lcs(before, after[1..]) {
        WalkIsOptimal(before[1..], after);
      } else {
        WalkIsOptimal(before, after[1..]);
      }
      var rest := Walk(before, after)[1..];
      assert Walk(before, after) == [Walk(before, after)[0]] + rest;
    }
  }

  /** The longest common subsequence is itself common to both sides. */
  lemma LcsIsAttained(a: seq<string>, b: seq<string>)
    ensures Common(Kept(Walk(a, b)), a, b) && |Kept(Walk(a, b))| == Lcs(a, b)
  {
    WalkIsOptimal(a, b);
    KeptIsCommon(Walk(a, b));
  }

  lemma LongestHasLcs(s: seq<string>, a: seq<string>, b: seq<string>)
    requires Longest(s, a, b)
    ensures |s| == Lcs(a, b)
  {
    hide Subsequence;
    hide Lcs;
    LcsIsUpperBound(s, a, b);
    LcsIsAttained(a, b);
  }

  lemma LcsIsSymmetric(a: seq<string>, b: seq<string>)
    ensures Lcs(a, b) == Lcs(b, a)
  {
    LcsIsAttained(a, b);
    LcsIsAttained(b, a);
    LcsIsUpperBound(Kept(Walk(a, b)), b, a);
    LcsIsUpperBound(Kept(Walk(b, a)), a, b);
  }

  lemma {:induction false} LcsSharedHead(h: seq<string>, a: seq<string>, b: seq<string>)
    ensures Lcs(h + a, h + b) == |h| + Lcs(a, b)
  {
    if h == [] {
      assert h + a == a && h + b == b;
    } else {
      assert (h + a)[1..] == h[1..] + a && (h + b)[1..] == h[1..] + b;
      LcsSharedHead(h[1..], a, b);
    }
  }

  lemma LcsSharedLast(a: seq<string>, b: seq<string>, x: string)
    ensures Lcs(a + [x], b + [x]) == Lcs(a, b) + 1
  {
    LcsIsAttained(a, b);
    var s := Kept(Walk(a, b));
    AppendLast(s, a, x);
    AppendLast(s, b, x);
    LcsIsUpperBound(s + [x], a + [x], b + [x]);
    LcsIsAttained(a + [x], b + [x]);
    var t := Kept(Walk(a + [x], b + [x]));
    DropLast(t, a, x);
    DropLast(t, b, x);
    LcsIsUpperBound(t[..|t| - 1], a, b);
  }

  lemma {:induction false} LcsSharedTail(a: seq<string>, b: seq<string>, t: seq<string>)
    ensures Lcs(a + t, b + t) == Lcs(a, b) + |t|
  {
    if t == [] {
      assert a + t == a && b + t == b;
    } else {
      var init, x := t[..|t| - 1], t[|t| - 1];
      assert a + t == (a + init) + [x] && b + t == (b + init) + [x];
      LcsSharedLast(a + init, b + init, x);
      LcsSharedTail(a, b, init);
    }
  }

  lemma TrimmedIsOptimal(h: seq<string>, b: seq<string>, a: seq<string>, t: seq<string>)
    ensures Transforms(Tagged(Keep, h) + Walk(b, a) + Tagged(Keep, t), h + b + t, h + a + t)
    ensures |Kept(Tagged(Keep, h) + Walk(b, a) + Tagged(Keep, t))| == Lcs(h + b + t, h + a + t)
  {
    Projections(Tagged(Keep, h) + Walk(b, a), Tagged(Keep, t));
    Projections(Tagged(Keep, h), Walk(b, a));
    TaggedProjections(Keep, h);
    TaggedProjections(Keep, t);
    WalkIsOptimal(b, a);
    LcsSharedHead(h, b, a);
    LcsSharedTail(h + b, h + a, t);
  }

  lemma SplitInThree(before: seq<string>, after: seq<string>, head: nat, tail: nat)
    requires SharedHead(before, after, head)
    requires SharedTail(before[head..], after[head..], tail)
    ensures before == before[..head] + before[head..|before| - tail] + before[|before| - tail..]
    ensures after == before[..head] + after[head..|after| - tail] + before[|before| - tail..]
  {
    var t := before[|before| - tail..];
    var b, a := before[head..], after[head..];
    forall k | 0 <= k < tail ensures t[k] == after[|after| - tail + k] {
      assert b[|b| - tail + k] == a[|a| - tail + k];
    }
    assert t == after[|after| - tail..];
    assert before[..head] == after[..head];
    CutInThree(before, head, tail);
    CutInThree(after, head, tail);
  }

  lemma CutInThree(a: seq<string>, head: nat, tail: nat)
    requires head + tail <= |a|
    ensures a == a[..head] + a[head..|a| - tail] + a[|a| - tail..]
  {
  }

  /** Trimming the shared head and tail loses nothing: the script transforms one
      side into the other and keeps exactly the longest common subsequence. */
  lemma ScriptIsOptimal(before: seq<string>, after: seq<string>)
    ensures Transforms(Script(before, after), before, after)
    ensures |Kept(Script(before, after))| == if WithinLimit(before, after) then Lcs(before, after) else 0
  {
    hide Before;
    hide After;
    hide Kept;
    hide Tagged;
    hide Walk;
    hide Lcs;
    if !WithinLimit(before, after) {
      Projections(Tagged(Remove, before), Tagged(Insert, after));
      TaggedProjections(Remove, before);
      TaggedProjections(Insert, after);
    } else {
      var head := CommonHead(before, after);
      var tail := CommonTail(before[head..], after[head..]);
      var h, t := before[..head], before[|before| - tail..];
      var b, a := before[head..|before| - tail], after[head..|after| - tail];
      SplitInThree(before, after, head, tail);
      TrimmedIsOptimal(h, b, a, t);
    }
  }

  /** What the script keeps is a longest common subsequence. */
  lemma ScriptKeepsLongest(before: seq<string>, after: seq<string>)
    requires WithinLimit(before, after)
    ensures Longest(Kept(Script(before, after)), before, after)
  {
    ScriptIsOptimal(before, after);
    KeptIsCommon(Script(before, after));
    forall t | Common(t, before, after) ensures |t| <= Lcs(before, after) {
      LcsIsUpperBound(t, before, after);
    }
  }

  /** Within the limit, no script between the two lists adds and removes fewer lines. */
  lemma ScriptIsMinimal(before: seq<string>, after: seq<string>, other: seq<Op>)
    requires WithinLimit(before, after)
    requires Transforms(other, before, after)
    ensures Changes(Script(before, after)) <= Changes(other)
  {
    ScriptIsOptimal(before, after);
    KeptIsCommon(other);
    LcsIsUpperBound(Kept(other), before, after);
    KeptBounds(other);
    KeptBounds(Script(before, after));
  }

  /** A script that keeps everything is between equal lists, and the other way round. */
  lemma NoChangesIffEqual(before: seq<string>, after: seq<string>)
    ensures Changes(Script(before, after)) == 0 <==>
            before == after && (WithinLimit(before, after) || before == [])
  {
    var script := Script(before, after);
    ScriptIsOptimal(before, after);
    KeptBounds(script);
    KeptIsCommon(script);
    SubsequenceIsShorter(Kept(script), before);
    SubsequenceIsShorter(Kept(script), after);
    if before == after {
      SubsequenceOfItself(before);
      LcsIsUpperBound(before, before, after);
    }
  }

  // ----- the order of changes

  /** No insertion stands directly before a removal. */
  ghost predicate RemovalsFirst(ops: seq<Op>) {
    forall i :: 0 <= i < |ops| - 1 && ops[i].kind == Insert ==> ops[i + 1].kind != Remove
  }

  lemma LcsGrows(a: seq<string>, b: seq<string>)
    requires b != []
    ensures Lcs(a, b[1..]) <= Lcs(a, b)
  {
    LcsIsAttained(a, b[1..]);
    var s := Kept(Walk(a, b[1..]));
    Weaken(s, b);
    LcsIsUpperBound(s, a, b);
  }

  lemma {:induction false} WalkRemovesFirst(before: seq<string>, after: seq<string>)
    ensures RemovalsFirst(Walk(before, after))
    decreases |before| + |after|
  {
    if before == [] || after == [] {
    } else if before[0] == after[0] {
      WalkRemovesFirst(before[1..], after[1..]);
      PrependKeepsOrder(Op(Keep, before[0]), Walk(before[1..], after[1..]));
    } else if Lcs(before[1..], after) >= Lcs(before, after[1..]) {
      WalkRemovesFirst(before[1..], after);
      PrependKeepsOrder(Op(Remove, before[0]), Walk(before[1..], after));
    } else {
      WalkRemovesFirst(before, after[1..]);
      LcsGrows(before[1..], after);
      PrependKeepsOrder(Op(Insert, after[0]), Walk(before, after[1..]));
    }
  }

  lemma PrependKeepsOrder(op: Op, ops: seq<Op>)
    requires RemovalsFirst(ops)
    requires op.kind == Insert && ops != [] ==> ops[0].kind != Remove
    ensures RemovalsFirst([op] + ops)
  {
    var all := [op] + ops;
    assert forall i :: 1 <= i < |all| ==> all[i] == ops[i - 1];
  }

  /** Between two kept lines the removed ones come before the inserted ones; past the
      limit, that is all of one side and then all of the other. */
  lemma ScriptRemovesFirst(before: seq<string>, after: seq<string>)
    ensures RemovalsFirst(Script(before, after))
  {
    hide Walk;
    hide CommonHead;
    hide CommonTail;
    if WithinLimit(before, after) {
      var head := CommonHead(before, after);
      var tail := CommonTail(before[head..], after[head..]);
      var middle := Walk(before[head..|before| - tail], after[head..|after| - tail]);
      WalkRemovesFirst(before[head..|before| - tail], after[head..|after| - tail]);
      ScriptIsTrimmed(before, after, head, tail);
      AroundKeepsOrder(before, middle, head, tail);
    }
  }

  lemma AroundKeepsOrder(before: seq<string>, middle: seq<Op>, head: nat, tail: nat)
    requires head + tail <= |before| && RemovalsFirst(middle)
    ensures RemovalsFirst(Around(before, middle, head, tail))
  {
    var all := Around(before, middle, head, tail);
    forall i | 0 <= i < |all| - 1 && all[i].kind == Insert ensures all[i + 1].kind != Remove {
      assert all[i] == middle[i - head];
    }
  }

  // ----- the procedure

  /** Cell (i, j) holds the answer for the lists from `i` and from `j` on. */
  ghost predicate Filled(table: array2<nat>, before: seq<string>, after: seq<string>)
    reads table
  {
    && table.Length0 == |before| + 1 && table.Length1 == |after| + 1
    && forall i, j :: 0 <= i <= |before| && 0 <= j <= |after| ==> table[i, j] == Lcs(before[i..], after[j..])
  }

  method FillTable(before: seq<string>, after: seq<string>) returns (table: array2<nat>)
    ensures Filled(table, before, after)
  {
    var rows, columns := |before|, |after|;
    table := new nat[rows + 1, columns + 1]((i, j) => 0);
    for row := rows downto 0
      invariant forall i, j :: row <= i <= rows && 0 <= j <= columns ==> table[i, j] == Lcs(before[i..], after[j..])
      invariant forall i :: 0 <= i <= rows ==> table[i, columns] == 0
    {
      for column := columns downto 0
        invariant forall i, j :: row < i <= rows && 0 <= j <= columns ==> table[i, j] == Lcs(before[i..], after[j..])
        invariant forall i :: 0 <= i <= rows ==> table[i, columns] == 0
        invariant forall j :: column <= j <= columns ==> table[row, j] == Lcs(before[row..], after[j..])
      {
        assert before[row..][1..] == before[row + 1..] && after[column..][1..] == after[column + 1..];
        table[row, column] :=
          if before[row] == after[column] then table[row + 1, column + 1] + 1
          else if table[row + 1, column] >= table[row, column + 1] then table[row + 1, column]
          else table[row, column + 1];
      }
    }
  }

  /** The walk seen from cell (row, column). */
  function WalkFrom(before: seq<string>, after: seq<string>, row: nat, column: nat): seq<Op>
    requires row <= |before| && column <= |after|
  {
    Walk(before[row..], after[column..])
  }

  lemma WalkFromStart(before: seq<string>, after: seq<string>)
    ensures WalkFrom(before, after, 0, 0) == Walk(before, after)
  {
    assert before[0..] == before && after[0..] == after;
  }

  lemma WalkFromStep(before: seq<string>, after: seq<string>, row: nat, column: nat)
    requires row < |before| && column < |after|
    ensures WalkFrom(before, after, row, column) ==
            if before[row] == after[column]
            then [Op(Keep, before[row])] + WalkFrom(before, after, row + 1, column + 1)
            else if Lcs(before[row + 1..], after[column..]) >= Lcs(before[row..], after[column + 1..])
            then [Op(Remove, before[row])] + WalkFrom(before, after, row + 1, column)
            else [Op(Insert, after[column])] + WalkFrom(before, after, row, column + 1)
  {
    assert before[row..][1..] == before[row + 1..] && after[column..][1..] == after[column + 1..];
  }

  lemma WalkFromEdge(before: seq<string>, after: seq<string>, row: nat, column: nat)
    requires row <= |before| && column <= |after|
    ensures row == |before| && column < |after| ==>
              WalkFrom(before, after, row, column) ==
              [Op(Insert, after[column])] + WalkFrom(before, after, row, column + 1)
    ensures row < |before| && column == |after| ==>
              WalkFrom(before, after, row, column) ==
              [Op(Remove, before[row])] + WalkFrom(before, after, row + 1, column)
    ensures row == |before| && column == |after| ==> WalkFrom(before, after, row, column) == []
  {
    if row == |before| && column < |after| {
      assert Tagged(Insert, after[column..]) == [Op(Insert, after[column])] + Tagged(Insert, after[column + 1..]);
    } else if row < |before| && column == |after| {
      assert Tagged(Remove, before[row..]) == [Op(Remove, before[row])] + Tagged(Remove, before[row + 1..]);
      assert after[column..] == [];
    }
  }

  method WalkTable(table: array2<nat>, before: seq<string>, after: seq<string>) returns (middle: seq<Op>)
    requires Filled(table, before, after)
    ensures middle == Walk(before, after)
  {
    hide Walk;
    hide Lcs;
    hide WalkFrom;
    var row, column := 0, 0;
    middle := [];
    assert WalkFrom(before, after, 0, 0) == Walk(before, after) by {
      WalkFromStart(before, after);
    }
    while row < |before| && column < |after|
      invariant row <= |before| && column <= |after|
      invariant middle + WalkFrom(before, after, row, column) == Walk(before, after)
      decreases |before| - row + |after| - column
    {
      WalkFromStep(before, after, row, column);
      var op;
      if before[row] == after[column] {
        op := Op(Keep, before[row]);
        row, column := row + 1, column + 1;
      } else if table[row + 1, column] >= table[row, column + 1] {
        op := Op(Remove, before[row]);
        row := row + 1;
      } else {
        op := Op(Insert, after[column]);
        column := column + 1;
      }
      Regroup(middle, op, WalkFrom(before, after, row, column));
      middle := middle + [op];
    }
    while row < |before|
      invariant row <= |before| && column <= |after| && (row < |before| ==> column == |after|)
      invariant middle + WalkFrom(before, after, row, column) == Walk(before, after)
    {
      WalkFromEdge(before, after, row, column);
      Regroup(middle, Op(Remove, before[row]), WalkFrom(before, after, row + 1, column));
      middle := middle + [Op(Remove, before[row])];
      row := row + 1;
    }
    while column < |after|
      invariant column <= |after| && row == |before|
      invariant middle + WalkFrom(before, after, row, column) == Walk(before, after)
    {
      WalkFromEdge(before, after, row, column);
      Regroup(middle, Op(Insert, after[column]), WalkFrom(before, after, row, column + 1));
      middle := middle + [Op(Insert, after[column])];
      column := column + 1;
    }
    WalkFromEdge(before, after, row, column);
  }

  lemma Regroup(a: seq<Op>, op: Op, b: seq<Op>)
    ensures a + ([op] + b) == a + [op] + b
  {
  }

  lemma SharedHeadIsUnique(a: seq<string>, b: seq<string>, m: nat, n: nat)
    requires SharedHead(a, b, m) && SharedHead(a, b, n)
    ensures m == n
  {
  }

  lemma SharedTailIsUnique(a: seq<string>, b: seq<string>, m: nat, n: nat)
    requires SharedTail(a, b, m) && SharedTail(a, b, n)
    ensures m == n
  {
  }

  method Trim(before: seq<string>, after: seq<string>) returns (head: nat, tail: nat)
    ensures head == CommonHead(before, after)
    ensures tail == CommonTail(before[head..], after[head..])
    ensures head + tail <= |before| && head + tail <= |after|
  {
    hide CommonHead;
    hide CommonTail;
    head := 0;
    while head < |before| && head < |after| && before[head] == after[head]
      invariant head <= |before| && head <= |after|
      invariant forall i :: 0 <= i < head ==> before[i] == after[i]
    {
      head := head + 1;
    }
    SharedHeadIsUnique(before, after, head, CommonHead(before, after));
    ghost var b, a := before[head..], after[head..];
    tail := 0;
    while tail < |before| - head && tail < |after| - head && before[|before| - 1 - tail] == after[|after| - 1 - tail]
      invariant tail <= |before| - head && tail <= |after| - head
      invariant SameEnds(b, a, tail)
    {
      tail := tail + 1;
    }
    SharedTailIsUnique(b, a, tail, CommonTail(b, a));
  }

  /** `editScript`: the lists are recovered by dropping one kind of change, and
      within the limit nothing common to both sides is longer than what is kept. */
  method EditScript(before: seq<string>, after: seq<string>) returns (ops: seq<Op>)
    ensures ops == Script(before, after)
    ensures Before(ops) == before && After(ops) == after
    ensures WithinLimit(before, after) ==> Longest(Kept(ops), before, after)
  {
    ScriptIsOptimal(before, after);
    if |before| > LCS_MAX_LINES || |after| > LCS_MAX_LINES {
      ops := Tagged(Remove, before) + Tagged(Insert, after);
    } else {
      ScriptKeepsLongest(before, after);
      hide Script;
      hide Longest;
      var head, tail := Trim(before, after);
      ScriptIsTrimmed(before, after, head, tail);
      var middleBefore, middleAfter := before[head..|before| - tail], after[head..|after| - tail];
      var table := FillTable(middleBefore, middleAfter);
      var middle := WalkTable(table, middleBefore, middleAfter);
      ops := Around(before, middle, head, tail);
    }
  }

  lemma ScriptIsTrimmed(before: seq<string>, after: seq<string>, head: nat, tail: nat)
    requires WithinLimit(before, after)
    requires head == CommonHead(before, after) && tail == CommonTail(before[head..], after[head..])
    ensures Script(before, after) == Around(before, Walk(before[head..|before| - tail], after[head..|after| - tail]), head, tail)
  {
    hide Walk;
    hide Around;
    hide CommonHead;
    hide CommonTail;
  }
}
