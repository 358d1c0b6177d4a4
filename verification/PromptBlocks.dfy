/** The budgeted blocks apps/api/src/kernel/context.ts appends to a system prompt. The
    fixed prose of headers and notes enters only as text it is given. */
module PromptBlocks {
  import opened Text
  import opened Whitespace

  // ----- recalled notes, conventions and passages: a greedy fill

  function Cost(rendered: string): nat {
    |rendered| + 2
  }

  /** What the code counts as used after these entries. */
  function Used(header: string, lines: seq<string>): (used: nat)
    ensures used >= |header|
  {
    if lines == [] then |header| else Used(header, lines[..|lines| - 1]) + Cost(lines[|lines| - 1])
  }

  function Block(header: string, lines: seq<string>): string {
    if lines == [] then "" else header + "\n\n" + Join(lines, "\n\n")
  }

  lemma {:induction false} UsedIsLengths(header: string, lines: seq<string>)
    ensures Used(header, lines) == |header| + Lengths(lines, 2)
  {
    if lines != [] {
      UsedIsLengths(header, lines[..|lines| - 1]);
    }
  }

  /** The counted size of a block is its size. */
  lemma BlockIsCounted(header: string, lines: seq<string>)
    requires lines != []
    ensures |Block(header, lines)| == Used(header, lines)
  {
    JoinLength(lines, "\n\n");
    UsedIsLengths(header, lines);
  }

  function Picked(rendered: seq<string>, chosen: seq<nat>): (lines: seq<string>)
    requires forall i :: 0 <= i < |chosen| ==> chosen[i] < |rendered|
    ensures |lines| == |chosen| && forall i :: 0 <= i < |chosen| ==> lines[i] == rendered[chosen[i]]
  {
    seq(|chosen|, i requires 0 <= i < |chosen| => rendered[chosen[i]])
  }

  /** The entries among the first `n` that fit when their turn comes. */
  function Chosen(header: string, rendered: seq<string>, budget: int, n: nat): (chosen: seq<nat>)
    requires n <= |rendered|
    ensures forall i :: 0 <= i < |chosen| ==> chosen[i] < n
    ensures forall i, j :: 0 <= i < j < |chosen| ==> chosen[i] < chosen[j]
  {
    if n == 0 then []
    else
      var before := Chosen(header, rendered, budget, n - 1);
      if Used(header, Picked(rendered, before)) + Cost(rendered[n - 1]) <= budget then before + [n - 1] else before
  }

  lemma UsedGrows(header: string, lines: seq<string>, line: string)
    ensures Used(header, lines + [line]) == Used(header, lines) + Cost(line)
  {
    assert (lines + [line])[..|lines|] == lines;
  }

  /** How the choice and its lines grow by one entry. */
  lemma ChosenStep(header: string, rendered: seq<string>, budget: int, n: nat)
    requires n < |rendered|
    ensures var before, after := Chosen(header, rendered, budget, n), Chosen(header, rendered, budget, n + 1);
            var lines := Picked(rendered, before);
            if Used(header, lines) + Cost(rendered[n]) <= budget
            then after == before + [n] && Picked(rendered, after) == lines + [rendered[n]]
                 && Used(header, Picked(rendered, after)) == Used(header, lines) + Cost(rendered[n])
            else after == before
  {
    UsedGrows(header, Picked(rendered, Chosen(header, rendered, budget, n)), rendered[n]);
  }

  method Select(header: string, rendered: seq<string>, budget: int) returns (text: string, injected: seq<nat>)
    ensures injected == Chosen(header, rendered, budget, |rendered|)
    ensures text == if injected == [] then "" else header + "\n\n" + Join(Picked(rendered, injected), "\n\n")
    ensures |text| <= if budget < 0 then 0 else budget
  {
    hide Chosen;
    hide Used;
    hide Picked;
    var lines := [];
    injected := [];
    var used := |header|;
    NothingChosen(header, rendered, budget);
    for i := 0 to |rendered|
      invariant injected == Chosen(header, rendered, budget, i)
      invariant lines == Picked(rendered, injected) && used == Used(header, lines)
      invariant lines != [] ==> used <= budget
    {
      ChosenStep(header, rendered, budget, i);
      if used + Cost(rendered[i]) <= budget {
        lines := lines + [rendered[i]];
        injected := injected + [i];
        used := used + Cost(rendered[i]);
      }
    }
    if lines == [] {
      return "", [];
    }
    BlockIsCounted(header, lines);
    text := header + "\n\n" + Join(lines, "\n\n");
  }

  lemma NothingChosen(header: string, rendered: seq<string>, budget: int)
    ensures Chosen(header, rendered, budget, 0) == [] && Picked(rendered, []) == []
    ensures Used(header, []) == |header|
  {
  }

  /** A choice only grows, and only by later entries. */
  lemma {:induction false} ChosenLater(header: string, rendered: seq<string>, budget: int, i: nat, n: nat)
    requires i <= n <= |rendered|
    ensures var early, late := Chosen(header, rendered, budget, i), Chosen(header, rendered, budget, n);
            && early <= late && (forall j :: |early| <= j < |late| ==> late[j] >= i)
            && Used(header, Picked(rendered, early)) <= Used(header, Picked(rendered, late))
  {
    hide Used;
    hide Picked;
    if i < n {
      ChosenLater(header, rendered, budget, i, n - 1);
      ChosenStep(header, rendered, budget, n - 1);
    }
  }

  /** Best first, and nothing wasted: an entry is in exactly when it fitted beside the
      better ones that are, and what is left out would not fit now either. */
  lemma {:induction false} FillIsGreedy(header: string, rendered: seq<string>, budget: int, i: nat)
    requires i < |rendered|
    ensures var chosen := Chosen(header, rendered, budget, |rendered|);
            var better := Chosen(header, rendered, budget, i);
            && (i in chosen <==> Used(header, Picked(rendered, better)) + Cost(rendered[i]) <= budget)
            && (i !in chosen ==> Used(header, Picked(rendered, chosen)) + Cost(rendered[i]) > budget)
            && better <= chosen && forall j :: |better| <= j < |chosen| ==> chosen[j] >= i
  {
    hide Used;
    hide Picked;
    var n := |rendered|;
    var better, next, chosen := Chosen(header, rendered, budget, i), Chosen(header, rendered, budget, i + 1), Chosen(header, rendered, budget, n);
    ChosenStep(header, rendered, budget, i);
    ChosenLater(header, rendered, budget, i, n);
    ChosenLater(header, rendered, budget, i + 1, n);
    hide Chosen;
    if next != better {
      assert next[|better|] == i && chosen[|better|] == i;
    } else {
      assert forall j :: 0 <= j < |better| ==> chosen[j] == better[j] < i;
      assert forall j :: |better| <= j < |chosen| ==> chosen[j] >= i + 1;
    }
  }

  // ----- clipping

  function Flat(s: string): string {
    Trim(Squashed(s))
  }

  // What flattening does is settled by four equations: a blank text is empty, white space
  // at the ends goes, white space between two parts is one space, and a word is itself.

  lemma {:induction false} FlatOfBlank(gap: string)
    requires Gap(gap, 0, |gap|)
    ensures Flat(gap) == ""
  {
    if gap != "" {
      SquashedGap(gap, "");
      assert gap + "" == gap;
      SquashedOfNothing();
    } else {
      SquashedOfNothing();
    }
  }

  lemma SquashedOfNothing()
    ensures Squashed("") == "" && Trim("") == "" && Trim(" ") == ""
  {
    assert SkipSpace(" ", 0) == 1;
  }

  lemma FlatOfTrimmed(a: string)
    requires Trimmed(a)
    ensures Flat(a) == Squashed(a) && Trimmed(Flat(a))
  {
    SquashedStaysTrimmed(a);
    TrimOfTrimmed(Squashed(a));
  }

  lemma FlatDropsEnds(gap: string, a: string, end: string)
    requires Gap(gap, 0, |gap|) && Gap(end, 0, |end|) && Trimmed(a)
    ensures Flat(gap + a + end) == Flat(a)
  {
    FlatOfTrimmed(a);
    SquashedEnds(gap, a, end);
    hide Squashed;
    hide IsSpace;
    var before, after := if gap == "" then "" else " ", if end == "" then "" else " ";
    SpaceIsSpace();
    TrimDropsEnds(before, Squashed(a), after);
  }

  lemma SpaceIsSpace()
    ensures IsSpace(' ')
  {
  }

  lemma SquashedEnd(a: string, end: string)
    requires Gap(end, 0, |end|) && Trimmed(a)
    ensures Squashed(a + end) == Squashed(a) + (if end == "" then "" else " ")
  {
    hide IsSpace;
    SquashedEmpty();
    SquashedSplit(a, end);
    hide Squashed;
    if end != "" {
      SquashedGap(end, "");
      assert end + "" == end;
    }
  }

  lemma SquashedEnds(gap: string, a: string, end: string)
    requires Gap(gap, 0, |gap|) && Gap(end, 0, |end|) && Trimmed(a)
    ensures Squashed(gap + a + end) ==
            (if gap == "" then "" else " ") + Squashed(a) + (if end == "" then "" else " ")
  {
    hide IsSpace;
    hide Squashed;
    SquashedEnd(a, end);
    Regrouped(gap, a, end);
    Regrouped(" ", Squashed(a), if end == "" then "" else " ");
    if gap != "" {
      assert (a + end)[0] == a[0];
      SquashedGap(gap, a + end);
    } else {
      assert gap + (a + end) == a + end;
      assert "" + Squashed(a) == Squashed(a);
    }
  }

  lemma TrimDropsEnds(before: string, a: string, after: string)
    requires Gap(before, 0, |before|) && Gap(after, 0, |after|) && Trimmed(a)
    ensures Trim(before + a + after) == a
  {
    hide IsSpace;
    var s := before + a + after;
    var i := SkipSpace(s, 0);
    var from, to := |before|, |before| + |a|;
    assert s[from] == a[0] && s[to - 1] == a[|a| - 1];
    assert forall k :: 0 <= k < from ==> s[k] == before[k];
    assert forall k :: to <= k < |s| ==> s[k] == after[k - to];
    assert i == from;
    var j := BackSpace(s, i, |s|);
    assert j == to;
    assert s[from..to] == a;
  }

  lemma FlatJoins(a: string, gap: string, b: string)
    requires Trimmed(a) && Trimmed(b) && gap != "" && Gap(gap, 0, |gap|)
    ensures Flat(a + gap + b) == Flat(a) + " " + Flat(b)
  {
    var s := a + gap + b;
    FlatOfTrimmed(a);
    FlatOfTrimmed(b);
    assert s[0] == a[0] && s[|s| - 1] == b[|b| - 1];
    FlatOfTrimmed(s);
    assert a + (gap + b) == s;
    SquashedSplit(a, gap + b);
    SquashedGap(gap, b);
    hide Squashed;
    assert Squashed(a) + (" " + Squashed(b)) == Squashed(a) + " " + Squashed(b);
  }

  lemma {:induction false} FlatOfWord(word: string)
    requires NoSpace(word)
    ensures Flat(word) == word
  {
    if word == "" {
      SquashedOfNothing();
    } else {
      SquashedWord(word);
      TrimOfTrimmed(word);
    }
  }

  lemma {:induction false} SquashedWord(word: string)
    requires NoSpace(word)
    ensures Squashed(word) == word
  {
    hide IsSpace;
    if word != "" {
      SquashedWord(word[1..]);
    }
  }

  function LastSpace(s: string): (at: int)
    ensures -1 <= at < |s|
  {
    if s == "" then -1 else if s[|s| - 1] == ' ' then |s| - 1 else LastSpace(s[..|s| - 1])
  }

  const ELLIPSIS := '\U{2026}'

  /** At most `max` characters, the whole text when it fits, and otherwise a beginning of
      it that uses more than three fifths of the room, and an ellipsis. */
  function Clip(text: string, max: nat): (clipped: string)
    requires max >= 1
    ensures |clipped| <= max
    ensures |Flat(text)| <= max ==> clipped == Flat(text)
    ensures |Flat(text)| > max ==>
              && clipped != "" && clipped[|clipped| - 1] == ELLIPSIS
              && clipped[..|clipped| - 1] <= Flat(text)
              && (|clipped| == max || 5 * (|clipped| - 1) > 3 * max)
  {
    var flat := Flat(text);
    if |flat| <= max then flat
    else
      var cut := flat[..max - 1];
      var space := LastSpace(cut);
      (if 5 * space > 3 * max then cut[..space] else cut) + [ELLIPSIS]
  }

  lemma {:induction false} LastSpaceIsLast(s: string)
    ensures LastSpace(s) >= 0 ==> s[LastSpace(s)] == ' '
    ensures forall i :: LastSpace(s) < i < |s| ==> s[i] != ' '
  {
    if s != "" {
      LastSpaceIsLast(s[..|s| - 1]);
    }
  }

  /** A text that does not fit is cut before the last space of its first `max - 1`
      characters, if that lies past three fifths of `max`, and else right there. */
  lemma ClipCutsAtAWord(text: string, max: nat)
    requires max >= 1 && |Flat(text)| > max
    ensures var cut, kept := Flat(text)[..max - 1], |Clip(text, max)| - 1;
            && kept <= |cut| && Clip(text, max) == cut[..kept] + "\U{2026}"
            && (kept < |cut| ==> cut[kept] == ' ' && 5 * kept > 3 * max && ' ' !in cut[kept + 1..])
            && (kept == |cut| ==> forall i :: 0 <= i < |cut| && 5 * i > 3 * max ==> cut[i] != ' ')
  {
    hide Flat;
    LastSpaceIsLast(Flat(text)[..max - 1]);
    assert "\U{2026}" == [ELLIPSIS];
  }

  // ----- the directory of other workspaces

  /** `name` is the line that names a peer. */
  datatype Peer = Peer(name: string, description: string)

  datatype Wording = Wording(header: string, omission: nat -> string, undescribed: nat -> string, noRoom: nat -> string)

  const DIRECTORY_SEPARATOR := " \U{2014} "
  const DIRECTORY_ENTRY_MAX := 300
  const DIRECTORY_ENTRY_MIN := 60

  function Described(peers: seq<Peer>): seq<Peer> {
    if peers == [] then []
    else (if Trim(peers[0].description) != "" then [peers[0]] else []) + Described(peers[1..])
  }

  /** A peer is described when its description is not blank; the others stay out and the
      order stays. */
  lemma {:induction false} DescribedSplits(a: seq<Peer>, b: seq<Peer>)
    ensures Described(a + b) == Described(a) + Described(b)
  {
    hide Trim;
    if a == [] {
      assert a + b == b;
    } else {
      assert (a + b)[0] == a[0] && (a + b)[1..] == a[1..] + b;
      DescribedSplits(a[1..], b);
    }
  }

  lemma DescribedOne(peer: Peer)
    ensures Described([peer]) == if Erase(peer.description) != "" then [peer] else []
  {
    TrimIsBlank(peer.description);
    hide Trim;
    hide Erase;
    assert [peer][1..] == [];
  }

  /** Nothing is left of a text when it is trimmed exactly when nothing is when all white
      space goes. */
  lemma TrimIsBlank(s: string)
    ensures Trim(s) == "" <==> Erase(s) == ""
  {
    TrimInPlace(s, 0, |s|);
    assert s[0..|s|] == s;
    var start := SkipSpace(s, 0);
    var end := start + |Trim(s)|;
    hide IsSpace;
    hide SkipSpace;
    if Trim(s) == "" {
      EraseOfSpaces(s);
    } else {
      hide Trim;
      EraseKeeps(s, start);
    }
  }

  lemma EraseKeeps(s: string, i: nat)
    requires i < |s| && !IsSpace(s[i])
    ensures Erase(s) != ""
  {
    hide IsSpace;
    assert s == s[..i] + s[i..];
    EraseOfConcat(s[..i], s[i..]);
  }

  function Names(peers: seq<Peer>): (names: seq<string>)
    ensures |names| == |peers| && forall i :: 0 <= i < |peers| ==> names[i] == peers[i].name
  {
    seq(|peers|, i requires 0 <= i < |peers| => peers[i].name)
  }

  /** The size of the block with the first `kept` names and no descriptions. */
  function SizeOf(w: Wording, names: seq<string>, kept: nat): nat
    requires kept <= |names|
  {
    |w.header| + 1 + Lengths(names[..kept], 1)
    + if kept < |names| then |w.omission(|names| - kept)| + 1 else 0
  }

  /** The most names that fit, whatever the descriptions are. */
  predicate IsLargest(w: Wording, names: seq<string>, budget: int, kept: nat) {
    && kept <= |names| && (kept > 0 ==> SizeOf(w, names, kept) <= budget)
    && forall j :: kept < j <= |names| ==> SizeOf(w, names, j) > budget
  }

  /** The room each description gets. */
  function PerEntry(w: Wording, names: seq<string>, budget: int, kept: nat): (room: nat)
    requires 0 < kept <= |names|
    ensures room == 0 || DIRECTORY_ENTRY_MIN <= room <= DIRECTORY_ENTRY_MAX
    ensures room > 0 ==> SizeOf(w, names, kept) + (room + 3) * kept <= budget
  {
    var left := budget - SizeOf(w, names, kept) - |DIRECTORY_SEPARATOR| * kept;
    var share := left / kept;
    assert share * kept <= left;
    if share < DIRECTORY_ENTRY_MIN then 0
    else
      var room := if share < DIRECTORY_ENTRY_MAX then share else DIRECTORY_ENTRY_MAX;
      Shrinks(room, share, kept);
      room
  }

  /** It is the most there is room for: without descriptions, not even sixty characters
      each would fit, and below three hundred not one more. */
  lemma RoomIsTheMost(w: Wording, names: seq<string>, budget: int, kept: nat)
    requires 0 < kept <= |names|
    ensures var room, size := PerEntry(w, names, budget, kept), SizeOf(w, names, kept);
            && (room == 0 ==> size + (60 + 3) * kept > budget)
            && (0 < room < 300 ==> size + (room + 1 + 3) * kept > budget)
  {
    var left := budget - SizeOf(w, names, kept) - |DIRECTORY_SEPARATOR| * kept;
    hide SizeOf;
    var share := left / kept;
    assert |DIRECTORY_SEPARATOR| == 3;
    RoundedDown(left, kept);
    if share < 60 {
      Shrinks(share + 1, 60, kept);
    }
  }

  lemma RoundedDown(left: int, kept: nat)
    requires kept > 0
    ensures (left / kept + 1) * kept > left
  {
  }

  lemma Shrinks(a: int, b: int, k: nat)
    requires a <= b
    ensures a * k <= b * k
  {
  }

  function Entry(peer: Peer, room: nat): string {
    if room == 0 then peer.name else peer.name + DIRECTORY_SEPARATOR + Clip(peer.description, room)
  }

  function Entries(peers: seq<Peer>, room: nat): (lines: seq<string>)
    ensures |lines| == |peers| && forall i :: 0 <= i < |peers| ==> lines[i] == Entry(peers[i], room)
  {
    seq(|peers|, i requires 0 <= i < |peers| => Entry(peers[i], room))
  }

  /** The entries shown and, when some are not, the line that says how many. */
  function Listing(w: Wording, peers: seq<Peer>, kept: nat, room: nat): seq<string>
    requires kept <= |peers|
  {
    Entries(peers[..kept], room) + if kept < |peers| then [w.omission(|peers| - kept)] else []
  }

  method SelectDirectory(w: Wording, peers: seq<Peer>, budget: int) returns (text: string, shown: nat, room: nat)
    ensures peers == [] ==> text == "" && shown == 0
    ensures peers != [] && Described(peers) == [] ==> text == w.undescribed(|peers|) && shown == 0
    ensures Described(peers) != [] ==>
              && IsLargest(w, Names(Described(peers)), budget, shown)
              && (shown == 0 ==> text == w.noRoom(|peers|))
              && (shown > 0 ==>
                    && room == PerEntry(w, Names(Described(peers)), budget, shown)
                    && text == w.header + "\n\n" + Join(Listing(w, Described(peers), shown, room), "\n")
                    && |text| <= budget)
  {
    room := 0;
    if |peers| == 0 {
      return "", 0, 0;
    }
    var described := Described(peers);
    if |described| == 0 {
      return w.undescribed(|peers|), 0, 0;
    }
    var names := Names(described);
    var kept: nat := |names|;
    while kept > 0 && SizeOf(w, names, kept) > budget
      invariant kept <= |names|
      invariant forall j :: kept < j <= |names| ==> SizeOf(w, names, j) > budget
    {
      kept := kept - 1;
    }
    if kept == 0 {
      return w.noRoom(|peers|), 0, 0;
    }
    shown, room := kept, PerEntry(w, names, budget, kept);
    text := w.header + "\n\n" + Join(Listing(w, described, kept, room), "\n");
    DirectoryFits(w, described, budget, kept);
  }

  lemma LengthsGrow(lines: seq<string>, line: string, extra: nat)
    ensures Lengths(lines + [line], extra) == Lengths(lines, extra) + |line| + extra
  {
    assert (lines + [line])[..|lines|] == lines;
  }

  lemma EntryLength(peer: Peer, room: nat)
    ensures |Entry(peer, room)| <= |peer.name| + (if room == 0 then 0 else room + 3)
  {
    assert |DIRECTORY_SEPARATOR| == 3;
  }

  lemma EntriesSplit(peers: seq<Peer>, room: nat)
    requires peers != []
    ensures var init, last := peers[..|peers| - 1], peers[|peers| - 1];
            Entries(peers, room) == Entries(init, room) + [Entry(last, room)]
  {
    hide Entry;
  }

  lemma NamesSplit(peers: seq<Peer>)
    requires peers != []
    ensures var init, last := peers[..|peers| - 1], peers[|peers| - 1];
            Names(peers) == Names(init) + [last.name]
  {
  }

  lemma {:induction false} EntriesLength(peers: seq<Peer>, room: nat)
    ensures Lengths(Entries(peers, room), 1) <= Lengths(Names(peers), 1) + Extra(room, |peers|)
  {
    hide Lengths;
    hide Entry;
    hide Entries;
    hide Names;
    hide Extra;
    if peers == [] {
      NoEntries(room);
    } else {
      var init, last := peers[..|peers| - 1], peers[|peers| - 1];
      EntriesLength(init, room);
      EntriesSplit(peers, room);
      NamesSplit(peers);
      EntryLength(last, room);
      LengthsGrow(Entries(init, room), Entry(last, room), 1);
      LengthsGrow(Names(init), last.name, 1);
      ExtraGrows(room, |init|);
    }
  }

  /** What descriptions of that room may add to so many names. */
  function Extra(room: nat, count: nat): nat {
    if room == 0 then 0 else (room + 3) * count
  }

  lemma ExtraGrows(room: nat, count: nat)
    ensures Extra(room, count + 1) == Extra(room, count) + if room == 0 then 0 else room + 3
  {
    if room > 0 {
      OneMore(room + 3, count);
    }
  }

  lemma NoEntries(room: nat)
    ensures Lengths(Entries([], room), 1) == 0 == Lengths(Names([]), 1)
  {
  }

  lemma BareEntries(peers: seq<Peer>)
    ensures Entries(peers, 0) == Names(peers)
  {
  }

  lemma OneMore(a: nat, n: nat)
    ensures a * (n + 1) == a * n + a
  {
  }

  /** The block's size is what was counted when descriptions are left out, and never
      more than the budget when they are not. */
  lemma DirectoryFits(w: Wording, peers: seq<Peer>, budget: int, kept: nat)
    requires 0 < kept <= |peers| && SizeOf(w, Names(peers), kept) <= budget
    ensures var room := PerEntry(w, Names(peers), budget, kept);
            var text := w.header + "\n\n" + Join(Listing(w, peers, kept, room), "\n");
            |text| <= budget && (room == 0 ==> |text| == SizeOf(w, Names(peers), kept))
  {
    hide Lengths;
    hide Entry;
    hide PerEntry;
    hide Join;
    var names := Names(peers);
    var room := PerEntry(w, names, budget, kept);
    var lines, entries := Listing(w, peers, kept, room), Entries(peers[..kept], room);
    EntriesLength(peers[..kept], room);
    BareEntries(peers[..kept]);
    assert Names(peers[..kept]) == names[..kept];
    JoinLength(lines, "\n");
    if kept < |peers| {
      LengthsGrow(entries, w.omission(|peers| - kept), 1);
    } else {
      assert lines == entries;
    }
  }

  /** The same peers, with descriptions reworded but none added or taken away. */
  predicate Reworded(one: seq<Peer>, other: seq<Peer>) {
    |one| == |other| && forall i :: 0 <= i < |one| ==>
      one[i].name == other[i].name && (Trim(one[i].description) == "" <==> Trim(other[i].description) == "")
  }

  lemma {:induction false} RewordedKeepsNames(one: seq<Peer>, other: seq<Peer>)
    requires Reworded(one, other)
    ensures Names(Described(one)) == Names(Described(other))
  {
    hide Trim;
    if one != [] {
      RewordedKeepsNames(one[1..], other[1..]);
      var head := if Trim(one[0].description) != "" then [one[0].name] else [];
      NamesOfDescribed(one);
      NamesOfDescribed(other);
    }
  }

  lemma NamesOfDescribed(peers: seq<Peer>)
    requires peers != []
    ensures Names(Described(peers)) ==
            (if Trim(peers[0].description) != "" then [peers[0].name] else []) + Names(Described(peers[1..]))
  {
    hide Trim;
  }

  /** Rewording descriptions never changes which peers are shown, nor the line that
      counts the others. */
  lemma DescriptionsDoNotMatter(w: Wording, one: seq<Peer>, other: seq<Peer>, budget: int,
                                a: nat, b: nat, roomA: nat, roomB: nat)
    requires Reworded(one, other)
    requires IsLargest(w, Names(Described(one)), budget, a) && IsLargest(w, Names(Described(other)), budget, b)
    ensures a == b && |Described(one)| == |Described(other)|
    ensures var listA, listB := Listing(w, Described(one), a, roomA), Listing(w, Described(other), b, roomB);
            && |listA| == |listB|
            && (forall i :: 0 <= i < a ==>
                  Described(one)[i].name == Described(other)[i].name
                  && Described(one)[i].name <= listA[i] && Described(other)[i].name <= listB[i])
            && (forall i :: a <= i < |listA| ==> listA[i] == listB[i])
  {
    hide Clip;
    RewordedKeepsNames(one, other);
    var x, y, names := Described(one), Described(other), Names(Described(one));
    forall i | 0 <= i < a ensures x[i].name == y[i].name {
      assert names[i] == x[i].name && Names(y)[i] == y[i].name;
    }
    hide IsLargest;
    hide Described;
    ListingShowsNames(w, x, a, roomA);
    ListingShowsNames(w, y, b, roomB);
  }

  /** Where there is room, a peer's description stands behind its name, clipped to the room. */
  lemma ListingDescribes(w: Wording, peers: seq<Peer>, kept: nat, room: nat, i: nat)
    requires i < kept <= |peers|
    ensures Listing(w, peers, kept, room)[i] ==
            peers[i].name + if room == 0 then "" else " \U{2014} " + Clip(peers[i].description, room)
  {
    hide Clip;
    assert Listing(w, peers, kept, room)[i] == Entry(peers[..kept][i], room);
    if room > 0 {
      Regrouped(peers[i].name, " \U{2014} ", Clip(peers[i].description, room));
    }
  }

  lemma ListingShowsNames(w: Wording, peers: seq<Peer>, kept: nat, room: nat)
    requires kept <= |peers|
    ensures var list := Listing(w, peers, kept, room);
            && |list| == kept + (if kept < |peers| then 1 else 0)
            && (forall i :: 0 <= i < kept ==> peers[i].name <= list[i])
            && (kept < |peers| ==> list[kept] == w.omission(|peers| - kept))
  {
    hide Clip;
    var list := Listing(w, peers, kept, room);
    forall i | 0 <= i < kept ensures peers[i].name <= list[i] {
      assert list[i] == Entry(peers[..kept][i], room);
    }
  }
}
