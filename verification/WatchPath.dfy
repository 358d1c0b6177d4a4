/** `watchPath` in packages/shared/src/domain.ts: following declared sources to
    refuse a trigger that would close a loop. */
module WatchPath {
  import opened Options
  import opened Sets

  datatype Node = Node(id: string)

  /** The declared sources of each automation; one that is not listed has none. */
  type Graph = map<Node, seq<Node>>

  function SourcesOf(g: Graph, n: Node): seq<Node> {
    if n in g then g[n] else []
  }

  /** Each node of the path is a declared source of the one before it. */
  ghost predicate IsPath(g: Graph, path: seq<Node>) {
    path != [] && forall i :: 0 <= i < |path| - 1 ==> path[i + 1] in SourcesOf(g, path[i])
  }

  function Last(path: seq<Node>): Node
    requires path != []
  {
    path[|path| - 1]
  }

  ghost predicate Leads(g: Graph, from: seq<Node>, target: Node, path: seq<Node>) {
    IsPath(g, path) && path[0] in from && Last(path) == target
  }

  ghost predicate Reaches(g: Graph, from: seq<Node>, target: Node) {
    exists path :: Leads(g, from, target, path)
  }

  /** Every automation the search can meet. */
  ghost function Universe(g: Graph, from: seq<Node>): set<Node> {
    (set n | n in from) + (set k, n | k in g.Keys && n in g[k] :: n)
  }

  /** `n` has been expanded, or a path on the stack ends in it. */
  ghost predicate Handled(stack: seq<seq<Node>>, seen: set<Node>, n: Node) {
    n in seen || exists i :: 0 <= i < |stack| && stack[i] != [] && Last(stack[i]) == n
  }

  ghost predicate StackInv(g: Graph, from: seq<Node>, stack: seq<seq<Node>>) {
    forall i :: 0 <= i < |stack| ==> IsPath(g, stack[i]) && stack[i][0] in from
  }

  ghost predicate Closed(g: Graph, from: seq<Node>, stack: seq<seq<Node>>, seen: set<Node>) {
    && (forall n :: n in from ==> Handled(stack, seen, n))
    && (forall n, m :: n in seen && m in SourcesOf(g, n) ==> Handled(stack, seen, m))
  }

  // ----- the walk

  ghost function Ends(stack: seq<seq<Node>>): set<Node> {
    set i | 0 <= i < |stack| && stack[i] != [] :: Last(stack[i])
  }

  ghost function Listed(g: Graph): set<Node> {
    set k, n | k in g.Keys && n in g[k] :: n
  }

  /** How many nodes the walk can still expand. */
  ghost function Outstanding(g: Graph, stack: seq<seq<Node>>, seen: set<Node>): nat {
    |Ends(stack) + Listed(g) - seen|
  }

  predicate NoneEmpty(stack: seq<seq<Node>>) {
    forall i :: 0 <= i < |stack| ==> stack[i] != []
  }

  function Starts(from: seq<Node>): (stack: seq<seq<Node>>)
    ensures NoneEmpty(stack) && |stack| == |from| && forall i :: 0 <= i < |from| ==> stack[i] == [from[i]]
  {
    seq(|from|, i requires 0 <= i < |from| => [from[i]])
  }

  function Extended(path: seq<Node>, sources: seq<Node>): (extended: seq<seq<Node>>)
    ensures NoneEmpty(extended) && |extended| == |sources|
    ensures forall i :: 0 <= i < |sources| ==> extended[i] == path + [sources[i]]
  {
    seq(|sources|, i requires 0 <= i < |sources| => path + [sources[i]])
  }

  /** What is found from a stack, the nodes of `seen` being expanded already. */
  function Walk(g: Graph, stack: seq<seq<Node>>, seen: set<Node>, target: Node): Option<seq<Node>>
    requires NoneEmpty(stack)
    decreases Outstanding(g, stack, seen), |stack|
  {
    if stack == [] then None
    else
      hide Outstanding;
      hide SourcesOf;
      var path, rest := stack[|stack| - 1], stack[..|stack| - 1];
      var node := Last(path);
      WalkShrinks(g, stack, seen);
      if node == target then Some(path)
      else if node in seen then Walk(g, rest, seen, target)
      else Walk(g, rest + Extended(path, SourcesOf(g, node)), seen + {node}, target)
  }

  lemma WalkShrinks(g: Graph, stack: seq<seq<Node>>, seen: set<Node>)
    requires NoneEmpty(stack) && stack != []
    ensures var path, rest := stack[|stack| - 1], stack[..|stack| - 1];
            var next := rest + Extended(path, SourcesOf(g, Last(path)));
            && Outstanding(g, rest, seen) <= Outstanding(g, stack, seen)
            && (Last(path) !in seen ==>
                  Outstanding(g, next, seen + {Last(path)}) < Outstanding(g, stack, seen))
  {
    hide Ends;
    hide Listed;
    hide Extended;
    hide SourcesOf;
    var node := Last(stack[|stack| - 1]);
    var next := stack[..|stack| - 1] + Extended(stack[|stack| - 1], SourcesOf(g, node));
    var all := Ends(stack) + Listed(g);
    EndsOfRest(stack);
    EndsOfNext(g, stack);
    SubsetIsSmaller(Ends(stack[..|stack| - 1]) + Listed(g) - seen, all - seen);
    if node !in seen {
      SubsetIsSmaller(Ends(next) + Listed(g) - (seen + {node}), all - seen - {node});
      CardinalityShrinks(all - seen, node);
    }
  }

  lemma EndsOfRest(stack: seq<seq<Node>>)
    requires NoneEmpty(stack) && stack != []
    ensures Ends(stack[..|stack| - 1]) <= Ends(stack) && Last(stack[|stack| - 1]) in Ends(stack)
  {
    var rest := stack[..|stack| - 1];
    forall n | n in Ends(rest) ensures n in Ends(stack) {
      var i :| 0 <= i < |rest| && Last(rest[i]) == n;
      assert stack[i] == rest[i];
    }
  }

  lemma EndsOfNext(g: Graph, stack: seq<seq<Node>>)
    requires NoneEmpty(stack) && stack != []
    ensures var path, rest := stack[|stack| - 1], stack[..|stack| - 1];
            Ends(rest + Extended(path, SourcesOf(g, Last(path)))) <= Ends(stack) + Listed(g)
  {
    var path, rest := stack[|stack| - 1], stack[..|stack| - 1];
    var sources := SourcesOf(g, Last(path));
    var more := Extended(path, sources);
    EndsOfRest(stack);
    EndsOfBoth(rest, more);
    forall n | n in Ends(more) ensures n in Listed(g) {
      var i :| 0 <= i < |more| && Last(more[i]) == n;
      assert sources[i] == n && sources[i] in sources;
    }
  }

  lemma EndsOfBoth(a: seq<seq<Node>>, b: seq<seq<Node>>)
    requires NoneEmpty(a) && NoneEmpty(b)
    ensures Ends(a + b) <= Ends(a) + Ends(b)
  {
    var both := a + b;
    forall n | n in Ends(both) ensures n in Ends(a) + Ends(b) {
      var i :| 0 <= i < |both| && Last(both[i]) == n;
      if i < |a| {
        assert a[i] == both[i];
      } else {
        assert b[i - |a|] == both[i];
      }
    }
  }

  lemma WalkPops(g: Graph, stack: seq<seq<Node>>, seen: set<Node>, target: Node)
    requires NoneEmpty(stack) && stack != []
    ensures var path, rest := stack[|stack| - 1], stack[..|stack| - 1];
            Walk(g, stack, seen, target) ==
            if Last(path) == target then Some(path)
            else if Last(path) in seen then Walk(g, rest, seen, target)
            else Walk(g, rest + Extended(path, SourcesOf(g, Last(path))), seen + {Last(path)}, target)
  {
  }

  /** The walk stops on any graph, cyclic or not, with a path exactly when one exists. */
  method Watch(g: Graph, from: seq<Node>, target: Node) returns (found: Option<seq<Node>>)
    ensures found.Some? <==> Reaches(g, from, target)
    ensures found.Some? ==> Leads(g, from, target, found.value)
    ensures found == Walk(g, Starts(from), {}, target)
  {
    hide Walk;
    hide Closed;
    hide StackInv;
    hide Universe;
    hide Reaches;
    var seen: set<Node> := {};
    var stack := Starts(from);
    ghost var universe := Universe(g, from);
    StartIsClosed(g, from, stack);
    while |stack| > 0
      invariant StackInv(g, from, stack) && Closed(g, from, stack, seen)
      invariant target !in seen && seen <= universe
      invariant NoneEmpty(stack) && Walk(g, stack, seen, target) == Walk(g, Starts(from), {}, target)
      decreases |universe - seen|, |stack|
    {
      var path := stack[|stack| - 1];
      ghost var before := stack;
      stack := stack[..|stack| - 1];
      TopIsPath(g, from, before);
      WalkPops(g, before, seen, target);
      var node := path[|path| - 1];
      if node == target {
        FoundOne(g, from, target, path);
        return Some(path);
      }
      PopKeepsPaths(g, from, before);
      if node in seen {
        PopKeepsClosed(g, from, before, seen);
        continue;
      }
      EndsInUniverse(g, from, path);
      CardinalityShrinks(universe - seen, node);
      assert universe - seen - {node} == universe - (seen + {node});
      var sources := SourcesOf(g, node);
      var extended := Extended(path, sources);
      stack := stack + extended;
      ExpandKeeps(g, from, before, seen, path, extended);
      seen := seen + {node};
    }
    NothingLeft(g, from, stack, seen, target);
    NothingToWalk(g, seen, target);
    return None;
  }

  lemma NothingToWalk(g: Graph, seen: set<Node>, target: Node)
    ensures Walk(g, [], seen, target) == None
  {
  }

  lemma CardinalityShrinks(a: set<Node>, x: Node)
    requires x in a
    ensures |a - {x}| < |a|
  {
  }

  lemma TopIsPath(g: Graph, from: seq<Node>, stack: seq<seq<Node>>)
    requires stack != [] && StackInv(g, from, stack)
    ensures var path := stack[|stack| - 1]; IsPath(g, path) && path[0] in from
  {
  }

  lemma FoundOne(g: Graph, from: seq<Node>, target: Node, path: seq<Node>)
    requires Leads(g, from, target, path)
    ensures Reaches(g, from, target)
  {
  }

  lemma PopKeepsPaths(g: Graph, from: seq<Node>, stack: seq<seq<Node>>)
    requires stack != [] && StackInv(g, from, stack)
    ensures StackInv(g, from, stack[..|stack| - 1])
  {
  }

  lemma StartIsClosed(g: Graph, from: seq<Node>, stack: seq<seq<Node>>)
    requires |stack| == |from| && forall i :: 0 <= i < |from| ==> stack[i] == [from[i]]
    ensures StackInv(g, from, stack) && Closed(g, from, stack, {})
  {
    forall n | n in from ensures Handled(stack, {}, n) {
      var i :| 0 <= i < |from| && from[i] == n;
      assert Last(stack[i]) == n;
    }
  }

  lemma PopKeepsClosed(g: Graph, from: seq<Node>, stack: seq<seq<Node>>, seen: set<Node>)
    requires stack != [] && StackInv(g, from, stack) && Closed(g, from, stack, seen)
    requires Last(stack[|stack| - 1]) in seen
    ensures Closed(g, from, stack[..|stack| - 1], seen)
  {
    var rest := stack[..|stack| - 1];
    forall n | Handled(stack, seen, n) ensures Handled(rest, seen, n) {
      if n !in seen {
        var i :| 0 <= i < |stack| && stack[i] != [] && Last(stack[i]) == n;
        assert rest[i] == stack[i];
      }
    }
  }

  lemma {:induction false} EndsInUniverse(g: Graph, from: seq<Node>, path: seq<Node>)
    requires IsPath(g, path) && path[0] in from
    ensures Last(path) in Universe(g, from)
  {
    if |path| > 1 {
      var k := path[|path| - 2];
      assert path[|path| - 2 + 1] in SourcesOf(g, k);
    }
  }

  lemma ExpandKeeps(g: Graph, from: seq<Node>, stack: seq<seq<Node>>, seen: set<Node>, path: seq<Node>, extended: seq<seq<Node>>)
    requires stack != [] && StackInv(g, from, stack) && Closed(g, from, stack, seen)
    requires path == stack[|stack| - 1]
    requires var sources := SourcesOf(g, Last(path));
             |extended| == |sources| && forall i :: 0 <= i < |sources| ==> extended[i] == path + [sources[i]]
    ensures var next := stack[..|stack| - 1] + extended;
            StackInv(g, from, next) && Closed(g, from, next, seen + {Last(path)})
  {
    var node, sources := Last(path), SourcesOf(g, Last(path));
    var next, seen' := stack[..|stack| - 1] + extended, seen + {Last(path)};
    forall n | Handled(stack, seen, n) ensures Handled(next, seen', n) {
      if n !in seen' {
        var i :| 0 <= i < |stack| && stack[i] != [] && Last(stack[i]) == n;
        assert next[i] == stack[i];
      }
    }
    forall m | m in sources ensures Handled(next, seen', m) {
      var i :| 0 <= i < |sources| && sources[i] == m;
      assert next[|stack| - 1 + i] == extended[i] && Last(extended[i]) == m;
    }
    forall i | 0 <= i < |next| ensures IsPath(g, next[i]) && next[i][0] in from {
      if i < |stack| - 1 {
        assert next[i] == stack[i];
      } else {
        var j := i - (|stack| - 1);
        assert next[i] == extended[j] == path + [sources[j]];
        ExtendPath(g, path, sources[j]);
      }
    }
  }

  lemma ExtendPath(g: Graph, path: seq<Node>, n: Node)
    requires IsPath(g, path) && n in SourcesOf(g, Last(path))
    ensures IsPath(g, path + [n])
  {
  }

  lemma {:induction false} NothingLeft(g: Graph, from: seq<Node>, stack: seq<seq<Node>>, seen: set<Node>, target: Node)
    requires stack == [] && Closed(g, from, stack, seen) && target !in seen
    ensures !Reaches(g, from, target)
  {
    forall path | Leads(g, from, target, path) ensures false {
      StaysSeen(g, from, seen, path);
    }
  }

  lemma {:induction false} StaysSeen(g: Graph, from: seq<Node>, seen: set<Node>, path: seq<Node>)
    requires Closed(g, from, [], seen) && IsPath(g, path) && path[0] in from
    ensures Last(path) in seen
    decreases |path|
  {
    if |path| == 1 {
      assert Handled([], seen, path[0]);
    } else {
      var init := path[..|path| - 1];
      StaysSeen(g, from, seen, init);
      assert path[|path| - 2 + 1] in SourcesOf(g, Last(init));
      assert Handled([], seen, Last(path));
    }
  }

  // ----- why a null answer keeps the graph free of loops

  /** A path that comes back to where it started. */
  ghost predicate IsLoop(g: Graph, path: seq<Node>) {
    IsPath(g, path) && |path| >= 2 && path[0] == Last(path)
  }

  ghost predicate Acyclic(g: Graph) {
    forall path :: !IsLoop(g, path)
  }

  /** The walk never reads the sources of the target itself: with any others it takes
      the same way and finds the same path. */
  lemma {:induction false} WalkPassesTargetBy(g: Graph, stack: seq<seq<Node>>, seen: set<Node>, target: Node, sources: seq<Node>)
    requires NoneEmpty(stack)
    ensures Walk(g, stack, seen, target) == Walk(g[target := sources], stack, seen, target)
    decreases Outstanding(g, stack, seen), |stack|
  {
    hide Outstanding;
    hide Ends;
    hide Listed;
    hide Extended;
    hide Walk;
    var h := g[target := sources];
    if stack == [] {
      NothingToWalk(g, seen, target);
      NothingToWalk(h, seen, target);
    } else {
      var path, rest := stack[|stack| - 1], stack[..|stack| - 1];
      var node := Last(path);
      WalkPops(g, stack, seen, target);
      WalkPops(h, stack, seen, target);
      WalkShrinks(g, stack, seen);
      if node != target {
        if node in seen {
          WalkPassesTargetBy(g, rest, seen, target, sources);
        } else {
          assert SourcesOf(h, node) == SourcesOf(g, node);
          WalkPassesTargetBy(g, rest + Extended(path, SourcesOf(g, node)), seen + {node}, target, sources);
        }
      }
    }
  }

  /** Whatever the target's own sources, the same path is found, or none. */
  lemma TargetsOwnSourcesDoNotMatter(g: Graph, from: seq<Node>, target: Node, sources: seq<Node>)
    ensures Walk(g, Starts(from), {}, target) == Walk(g[target := sources], Starts(from), {}, target)
    ensures Reaches(g, from, target) <==> Reaches(g[target := sources], from, target)
  {
    WalkPassesTargetBy(g, Starts(from), {}, target, sources);
    hide Walk;
    var h := g[target := sources];
    if path :| Leads(g, from, target, path) {
      AvoidTarget(g, h, from, target, path);
    }
    if path :| Leads(h, from, target, path) {
      AvoidTarget(h, g, from, target, path);
    }
  }

  function FirstAt(path: seq<Node>, n: Node, from: nat): (i: nat)
    requires from < |path| && Last(path) == n
    ensures from <= i < |path| && path[i] == n && forall k :: from <= k < i ==> path[k] != n
    decreases |path| - from
  {
    if path[from] == n then from else FirstAt(path, n, from + 1)
  }

  /** The part of a path up to its first meeting with the target uses none of the target's sources. */
  lemma AvoidTarget(g: Graph, h: Graph, from: seq<Node>, target: Node, path: seq<Node>)
    requires Leads(g, from, target, path)
    requires forall n :: n != target ==> SourcesOf(g, n) == SourcesOf(h, n)
    ensures Reaches(h, from, target)
  {
    var i := FirstAt(path, target, 0);
    var short := path[..i + 1];
    forall k | 0 <= k < |short| - 1 ensures short[k + 1] in SourcesOf(h, short[k]) {
      assert short[k] == path[k] != target && short[k + 1] == path[k + 1];
    }
    assert Leads(h, from, target, short);
  }

  /** Giving an automation new sources in a loop-free graph keeps it loop-free
      exactly when the walk from those sources to the automation finds nothing. */
  lemma NewSourcesStayAcyclic(g: Graph, target: Node, sources: seq<Node>)
    requires Acyclic(g)
    ensures Acyclic(g[target := sources]) <==> !Reaches(g, sources, target)
  {
    var h := g[target := sources];
    if path :| Leads(g, sources, target, path) {
      TargetsOwnSourcesDoNotMatter(g, sources, target, sources);
      var way :| Leads(h, sources, target, way);
      CloseTheLoop(h, target, way);
    }
    if !Reaches(g, sources, target) {
      forall path ensures !IsLoop(h, path) {
        if IsLoop(h, path) {
          LoopNeedsAWay(g, target, sources, path);
        }
      }
    }
  }

  lemma CloseTheLoop(h: Graph, target: Node, way: seq<Node>)
    requires Leads(h, SourcesOf(h, target), target, way)
    ensures IsLoop(h, [target] + way) && !Acyclic(h)
  {
    var loop := [target] + way;
    assert forall i :: 0 < i < |loop| ==> loop[i] == way[i - 1];
    assert IsLoop(h, loop);
  }

  /** A loop that appears with the new sources contains a way from one of them to the target. */
  lemma LoopNeedsAWay(g: Graph, target: Node, sources: seq<Node>, loop: seq<Node>)
    requires Acyclic(g) && IsLoop(g[target := sources], loop)
    ensures Reaches(g, sources, target)
  {
    var h := g[target := sources];
    if k: nat :| k < |loop| - 1 && loop[k] == target {
      WayAround(g, target, sources, loop, k);
    } else {
      LoopWithoutTarget(g, h, target, loop);
    }
  }

  lemma LoopWithoutTarget(g: Graph, h: Graph, target: Node, loop: seq<Node>)
    requires IsLoop(h, loop) && forall k :: 0 <= k < |loop| - 1 ==> loop[k] != target
    requires forall n :: n != target ==> SourcesOf(g, n) == SourcesOf(h, n)
    ensures IsLoop(g, loop)
  {
    forall i | 0 <= i < |loop| - 1 ensures loop[i + 1] in SourcesOf(g, loop[i]) {
      assert loop[i] != target && loop[i + 1] in SourcesOf(h, loop[i]);
    }
  }

  lemma WayAround(g: Graph, target: Node, sources: seq<Node>, loop: seq<Node>, k: nat)
    requires IsLoop(g[target := sources], loop) && k < |loop| - 1 && loop[k] == target
    ensures Reaches(g, sources, target)
  {
    var h := g[target := sources];
    var turned := loop[k..] + loop[1..k + 1];
    TurnLoop(h, loop, k);
    var i := FirstAt(turned, target, 1);
    var way := turned[1..i + 1];
    assert turned[0 + 1] in SourcesOf(h, turned[0]);
    forall j | 0 <= j < |way| - 1 ensures way[j + 1] in SourcesOf(g, way[j]) {
      assert way[j] == turned[j + 1] != target;
      assert turned[(j + 1) + 1] in SourcesOf(h, turned[j + 1]);
    }
    assert way[0] == turned[1] && Last(way) == turned[i];
    FoundOne(g, sources, target, way);
  }

  /** A loop can be walked from any of its nodes. */
  lemma TurnLoop(h: Graph, loop: seq<Node>, k: nat)
    requires IsLoop(h, loop) && k < |loop| - 1
    ensures IsLoop(h, loop[k..] + loop[1..k + 1])
    ensures (loop[k..] + loop[1..k + 1])[0] == loop[k]
  {
    var turned, n := loop[k..] + loop[1..k + 1], |loop| - k;
    forall i | 0 <= i < |turned| - 1 ensures turned[i + 1] in SourcesOf(h, turned[i]) {
      if i < n - 1 {
        assert turned[i] == loop[k + i] && turned[i + 1] == loop[k + i + 1];
      } else if i == n - 1 {
        assert turned[i] == loop[|loop| - 1] == loop[0] && turned[i + 1] == loop[1] == loop[0 + 1];
      } else {
        assert turned[i] == loop[i - n + 1] && turned[i + 1] == loop[i - n + 2] == loop[(i - n + 1) + 1];
      }
    }
  }
}
