/** The ruler of apps/api/src/learning/eval.ts: recall, reciprocal rank and nDCG. The
    logarithmic discount enters only as a positive, strictly decreasing sequence. */
module RetrievalMetrics {
  import opened Sets

  type Id = string
  type Discount = nat -> real

  ghost predicate Discounts(d: Discount) {
    && (forall i :: d(i) > 0.0)
    && (forall i, j :: i < j ==> d(i) > d(j))
  }

  ghost predicate Distinct(ids: seq<Id>) {
    forall i, j :: 0 <= i < j < |ids| ==> ids[i] != ids[j]
  }

  function Min(a: nat, b: nat): nat {
    if a <= b then a else b
  }

  function Top(k: nat, ids: seq<Id>): seq<Id> {
    ids[..Min(k, |ids|)]
  }

  // ----- the figures

  function Found(relevant: seq<Id>, window: seq<Id>): seq<Id> {
    if relevant == [] then []
    else (if relevant[0] in window then [relevant[0]] else []) + Found(relevant[1..], window)
  }

  function RecallAt(k: nat, retrieved: seq<Id>, relevant: seq<Id>): real {
    if |relevant| == 0 then 0.0 else |Found(relevant, Top(k, retrieved))| as real / |relevant| as real
  }

  /** Whether each of `ids` is relevant. */
  function Flags(ids: seq<Id>, relevant: seq<Id>): (flags: seq<bool>)
    ensures |flags| == |ids| && forall i :: 0 <= i < |ids| ==> flags[i] == (ids[i] in relevant)
  {
    seq(|ids|, i requires 0 <= i < |ids| => ids[i] in relevant)
  }

  function Count(flags: seq<bool>): (n: nat)
    ensures n <= |flags|
  {
    if flags == [] then 0
    else Count(flags[..|flags| - 1]) + if flags[|flags| - 1] then 1 else 0
  }

  function Dcg(flags: seq<bool>, d: Discount): real {
    if flags == [] then 0.0
    else Dcg(flags[..|flags| - 1], d) + if flags[|flags| - 1] then d(|flags| - 1) else 0.0
  }

  function Ideal(n: nat, d: Discount): real {
    if n == 0 then 0.0 else Ideal(n - 1, d) + d(n - 1)
  }

  function Ndcg(k: nat, retrieved: seq<Id>, relevant: seq<Id>, d: Discount): real {
    var dcg, ideal := Dcg(Flags(Top(k, retrieved), relevant), d), Ideal(Min(k, |relevant|), d);
    if ideal == 0.0 then 0.0 else dcg / ideal
  }

  method NdcgAt(k: nat, retrieved: seq<Id>, relevant: seq<Id>, d: Discount) returns (ndcg: real)
    ensures ndcg == Ndcg(k, retrieved, relevant, d)
  {
    var wanted := set id | id in relevant;
    var window := Top(k, retrieved);
    ghost var flags := Flags(window, relevant);
    var dcg := 0.0;
    for index := 0 to |window|
      invariant dcg == Dcg(flags[..index], d)
    {
      assert flags[..index + 1][..index] == flags[..index];
      if window[index] in wanted {
        dcg := dcg + d(index);
      }
    }
    assert flags[..|window|] == flags;
    var ideal := 0.0;
    for index := 0 to Min(k, |relevant|)
      invariant ideal == Ideal(index, d)
    {
      ideal := ideal + d(index);
    }
    return if ideal == 0.0 then 0.0 else dcg / ideal;
  }

  /** One over the rank of the first relevant id. */
  method ReciprocalRank(retrieved: seq<Id>, relevant: seq<Id>) returns (rr: real)
    ensures rr == 0.0 <==> forall i :: 0 <= i < |retrieved| ==> retrieved[i] !in relevant
    ensures forall i :: 0 <= i < |retrieved| && retrieved[i] in relevant
                        && (forall j :: 0 <= j < i ==> retrieved[j] !in relevant)
              ==> rr == 1.0 / (i + 1) as real
  {
    var wanted := set id | id in relevant;
    var index := 0;
    while index < |retrieved| && retrieved[index] !in wanted
      invariant 0 <= index <= |retrieved|
      invariant forall j :: 0 <= j < index ==> retrieved[j] !in relevant
    {
      index := index + 1;
    }
    if index == |retrieved| {
      return 0.0;
    }
    assert retrieved[index] in relevant;
    return 1.0 / (index + 1) as real;
  }

  // ----- what the figures count

  /** The id is among the first `k` retrieved. */
  ghost predicate InTop(k: nat, retrieved: seq<Id>, id: Id) {
    exists j :: 0 <= j < k && j < |retrieved| && retrieved[j] == id
  }

  /** The places of the relevant ids that are among the first `k` retrieved. */
  ghost function Recalled(k: nat, retrieved: seq<Id>, relevant: seq<Id>): set<nat> {
    set i: nat | i < |relevant| && InTop(k, retrieved, relevant[i])
  }

  /** Recall is the share of the relevant ids that are among the first `k` retrieved. */
  lemma RecallIsTheShare(k: nat, retrieved: seq<Id>, relevant: seq<Id>)
    ensures RecallAt(k, retrieved, relevant) * |relevant| as real == |Recalled(k, retrieved, relevant)| as real
  {
    TopIsTop(k, retrieved);
    if |relevant| == 0 {
      assert Recalled(k, retrieved, relevant) == {};
    } else {
      FoundAreRecalled(k, retrieved, relevant);
      Times(|Found(relevant, Top(k, retrieved))| as real, |relevant| as real);
    }
  }

  lemma Times(a: real, b: real)
    requires b != 0.0
    ensures a / b * b == a
  {
  }

  lemma TopIsTop(k: nat, retrieved: seq<Id>)
    ensures forall id :: id in Top(k, retrieved) <==> InTop(k, retrieved, id)
  {
    forall id ensures id in Top(k, retrieved) <==> InTop(k, retrieved, id) {
      if InTop(k, retrieved, id) {
        var j :| 0 <= j < k && j < |retrieved| && retrieved[j] == id;
        assert Top(k, retrieved)[j] == id;
      }
      if id in Top(k, retrieved) {
        var j :| 0 <= j < |Top(k, retrieved)| && Top(k, retrieved)[j] == id;
        assert retrieved[j] == id;
      }
    }
  }

  lemma {:induction false} FoundAreRecalled(k: nat, retrieved: seq<Id>, relevant: seq<Id>)
    ensures |Found(relevant, Top(k, retrieved))| == |Recalled(k, retrieved, relevant)|
  {
    TopIsTop(k, retrieved);
    hide Top;
    hide InTop;
    if relevant == [] {
      assert Recalled(k, retrieved, relevant) == {};
    } else {
      var rest := relevant[1..];
      FoundAreRecalled(k, retrieved, rest);
      var later := set i: nat | i in Recalled(k, retrieved, rest) :: i + 1;
      Shifted(Recalled(k, retrieved, rest), later);
      RecalledSplit(k, retrieved, relevant, later);
    }
  }

  lemma RecalledSplit(k: nat, retrieved: seq<Id>, relevant: seq<Id>, later: set<nat>)
    requires relevant != [] && later == set i: nat | i in Recalled(k, retrieved, relevant[1..]) :: i + 1
    ensures |Recalled(k, retrieved, relevant)| == (if InTop(k, retrieved, relevant[0]) then 1 else 0) + |later|
  {
    hide InTop;
    var rest := relevant[1..];
    forall i: nat ensures i in Recalled(k, retrieved, relevant) <==> (i == 0 && InTop(k, retrieved, relevant[0])) || i in later {
      if i > 0 && i < |relevant| {
        assert rest[i - 1] == relevant[i];
        assert i - 1 in Recalled(k, retrieved, rest) <==> i in later;
      }
    }
    var first: set<nat> := if InTop(k, retrieved, relevant[0]) then {0} else {};
    assert Recalled(k, retrieved, relevant) == first + later && first !! later;
  }

  lemma {:induction false} Shifted(a: set<nat>, b: set<nat>)
    requires b == set i: nat | i in a :: i + 1
    ensures |b| == |a|
    decreases |a|
  {
    if a != {} {
      var x :| x in a;
      var rest := set i: nat | i in a - {x} :: i + 1;
      forall y: nat ensures y in rest <==> y in b && y != x + 1 {
        if y in b && y != x + 1 {
          var i: nat :| i in a && i + 1 == y;
          assert i in a - {x};
        }
      }
      assert x + 1 in b && rest == b - {x + 1};
      Shifted(a - {x}, rest);
    }
  }

  /** A hit at place `i` adds the discount of its place, whatever the others are ... */
  lemma {:induction false} HitsAddTheirDiscount(flags: seq<bool>, i: nat, d: Discount)
    requires i < |flags| && !flags[i]
    ensures Dcg(flags[i := true], d) == Dcg(flags, d) + d(i)
  {
    var n, more := |flags| - 1, flags[i := true];
    if i < n {
      HitsAddTheirDiscount(flags[..n], i, d);
      assert more[..n] == flags[..n][i := true];
    } else {
      assert more[..n] == flags[..n];
    }
  }

  /** ... and no hits are worth nothing. */
  lemma {:induction false} NoHitsNoGain(flags: seq<bool>, d: Discount)
    requires forall i :: 0 <= i < |flags| ==> !flags[i]
    ensures Dcg(flags, d) == 0.0
  {
    if flags != [] {
      NoHitsNoGain(flags[..|flags| - 1], d);
    }
  }

  /** nDCG is the gain of the first `k` over that of the best ranking of as many relevant ids. */
  lemma NdcgIsTheShare(k: nat, retrieved: seq<Id>, relevant: seq<Id>, d: Discount)
    requires Discounts(d) && k > 0 && relevant != []
    ensures var best: seq<bool> := seq(if k <= |relevant| then k else |relevant|, i => true);
            && Dcg(best, d) > 0.0
            && Ndcg(k, retrieved, relevant, d) * Dcg(best, d) == Dcg(Flags(Top(k, retrieved), relevant), d)
  {
    hide Dcg;
    hide Ideal;
    hide Flags;
    hide Discounts;
    var n := Min(k, |relevant|);
    BestGain(n, d);
    Times(Dcg(Flags(Top(k, retrieved), relevant), d), Ideal(n, d));
  }

  lemma BestGain(n: nat, d: Discount)
    requires Discounts(d) && n > 0
    ensures Dcg(seq(n, i => true), d) == Ideal(n, d) > 0.0
  {
    var best: seq<bool> := seq(n, i => true);
    AllTrue(best);
    DcgIsBounded(best, d);
    IdealIsPositive(n, d);
    hide Dcg;
    hide Ideal;
  }

  // ----- the rearrangement bound

  /** All the `true`s come first. */
  predicate Sorted(flags: seq<bool>) {
    forall i :: 0 <= i < Count(flags) ==> flags[i]
  }

  lemma {:induction false} IdealGrows(n: nat, m: nat, d: Discount)
    requires Discounts(d) && n < m
    ensures Ideal(n, d) < Ideal(m, d)
  {
    assert d(m - 1) > 0.0;
    if n < m - 1 {
      IdealGrows(n, m - 1, d);
    }
  }

  lemma IdealIsPositive(n: nat, d: Discount)
    requires Discounts(d) && n > 0
    ensures Ideal(n, d) > 0.0
  {
    IdealGrows(0, n, d);
  }

  /** However `n` hits are placed they are worth at most what `n` first places are,
      and that much only when they are the first `n` places. */
  lemma {:induction false} DcgIsBounded(flags: seq<bool>, d: Discount)
    requires Discounts(d)
    ensures 0.0 <= Dcg(flags, d) <= Ideal(Count(flags), d)
    ensures Dcg(flags, d) == Ideal(Count(flags), d) <==> Sorted(flags)
  {
    if flags != [] {
      var init, n := flags[..|flags| - 1], |flags| - 1;
      var c := Count(init);
      DcgIsBounded(init, d);
      assert d(n) > 0.0;
      assert forall i :: 0 <= i < n ==> init[i] == flags[i];
      if flags[n] {
        assert c < n ==> d(c) > d(n);
        if c == n {
          assert Sorted(flags) <==> Sorted(init);
        } else if Sorted(flags) {
          AllCounted(init, c);
        }
      } else {
        assert Sorted(flags) <==> Sorted(init);
      }
    }
  }

  /** More hits up front than are counted: there is no such list. */
  lemma {:induction false} AllCounted(flags: seq<bool>, n: nat)
    requires n < |flags| && forall i :: 0 <= i <= n ==> flags[i]
    ensures Count(flags) > n
  {
    var init := flags[..|flags| - 1];
    if |init| == n {
      AllTrue(init);
    } else {
      AllCounted(init, n);
    }
  }

  lemma {:induction false} AllTrue(flags: seq<bool>)
    requires forall i :: 0 <= i < |flags| ==> flags[i]
    ensures Count(flags) == |flags|
  {
    if flags != [] {
      AllTrue(flags[..|flags| - 1]);
    }
  }

  ghost function Hits(ids: seq<Id>, relevant: seq<Id>): set<Id> {
    set id | id in ids && id in relevant
  }

  /** Distinct hits are no more than the distinct relevant ids. */
  lemma HitsAreFew(ids: seq<Id>, relevant: seq<Id>)
    requires Distinct(ids)
    ensures Count(Flags(ids, relevant)) <= |relevant|
  {
    var all := set id | id in relevant;
    CountIsHits(ids, relevant);
    SetNoLarger(relevant, all);
    SubsetIsSmaller(Hits(ids, relevant), all);
  }

  lemma {:induction false} SetNoLarger(ids: seq<Id>, all: set<Id>)
    requires all == set id | id in ids
    ensures |all| <= |ids|
  {
    if ids != [] {
      var rest := set id | id in ids[1..];
      SetNoLarger(ids[1..], rest);
      assert all == rest + {ids[0]};
    }
  }

  lemma {:induction false} CountIsHits(ids: seq<Id>, relevant: seq<Id>)
    requires Distinct(ids)
    ensures Count(Flags(ids, relevant)) == |Hits(ids, relevant)|
  {
    if ids == [] {
      assert Hits(ids, relevant) == {};
    } else {
      hide Hits;
      var init := ids[..|ids| - 1];
      CountIsHits(init, relevant);
      HitsSplit(ids, relevant);
      assert Flags(ids, relevant)[..|ids| - 1] == Flags(init, relevant);
    }
  }

  lemma HitsSplit(ids: seq<Id>, relevant: seq<Id>)
    requires Distinct(ids) && ids != []
    ensures var init, last := ids[..|ids| - 1], ids[|ids| - 1];
            && last !in Hits(init, relevant)
            && Hits(ids, relevant) == if last in relevant then Hits(init, relevant) + {last} else Hits(init, relevant)
  {
    var init, last := ids[..|ids| - 1], ids[|ids| - 1];
    assert ids == init + [last];
  }

  /** nDCG is between 0 and 1, and 1 exactly for a ranking that starts with as many
      relevant ids as fit. */
  lemma NdcgIsNormalised(k: nat, retrieved: seq<Id>, relevant: seq<Id>, d: Discount)
    requires Discounts(d) && Distinct(retrieved)
    ensures 0.0 <= Ndcg(k, retrieved, relevant, d) <= 1.0
    ensures var n := Min(k, |relevant|);
            n > 0 ==> (Ndcg(k, retrieved, relevant, d) == 1.0 <==>
                         n <= |retrieved| && forall i :: 0 <= i < n ==> retrieved[i] in relevant)
  {
    var n, window := Min(k, |relevant|), Top(k, retrieved);
    var flags := Flags(window, relevant);
    var c := Count(flags);
    DcgIsBounded(flags, d);
    HitsAreFew(window, relevant);
    if n > 0 {
      IdealIsPositive(n, d);
      if c < n {
        IdealGrows(c, n, d);
        if n <= |retrieved| && forall i :: 0 <= i < n ==> retrieved[i] in relevant {
          AllCounted(flags, n - 1);
        }
      } else {
        assert c == n;
      }
      Quotient(Dcg(flags, d), Ideal(n, d));
    }
  }

  lemma Quotient(a: real, b: real)
    requires 0.0 <= a <= b && b > 0.0
    ensures 0.0 <= a / b <= 1.0 && (a / b == 1.0 <==> a == b)
  {
  }

  // ----- when the bound holds

  /** A discount that hardly falls: one, and a share of `step` that shrinks with rank. */
  function Gentle(step: real): Discount {
    (i: nat) => 1.0 + step / (i + 1) as real
  }

  lemma GentleDiscounts(step: real)
    requires step > 0.0
    ensures Discounts(Gentle(step))
  {
    var d := Gentle(step);
    forall i: nat ensures d(i) > 1.0 {
      AboveZero(step, (i + 1) as real);
    }
    forall i: nat, j: nat | i < j ensures d(i) > d(j) {
      Falls(step, (i + 1) as real, (j + 1) as real);
    }
  }

  lemma AboveZero(a: real, b: real)
    requires a > 0.0 && b > 0.0
    ensures a / b > 0.0
  {
  }

  lemma Falls(a: real, b: real, c: real)
    requires a > 0.0 && 0.0 < b < c
    ensures a / b > a / c
  {
    var x, y := a / b, a / c;
    assert x * b == a && y * c == a;
    AboveZero(a, c);
    Scales(y, b, c);
    assert (x - y) * b == y * c - y * b;
    PositiveFactor(x - y, b);
  }

  lemma Scales(y: real, b: real, c: real)
    requires y > 0.0 && b < c
    ensures y * b < y * c
  {
  }

  lemma PositiveFactor(u: real, b: real)
    requires b > 0.0 && u * b > 0.0
    ensures u > 0.0
  {
  }

  lemma {:induction false} GentleHits(flags: seq<bool>, step: real)
    requires step > 0.0
    ensures Dcg(flags, Gentle(step)) >= Count(flags) as real
  {
    if flags != [] {
      GentleHits(flags[..|flags| - 1], step);
      AboveZero(step, |flags| as real);
    }
  }

  lemma {:induction false} GentleIdeal(n: nat, step: real)
    requires step > 0.0
    ensures Ideal(n, Gentle(step)) <= n as real * (1.0 + step)
  {
    if n > 0 {
      GentleIdeal(n - 1, step);
      AtMost(step, n as real);
      assert n as real * (1.0 + step) == (n - 1) as real * (1.0 + step) + (1.0 + step);
    }
  }

  lemma AtMost(a: real, b: real)
    requires a > 0.0 && b >= 1.0
    ensures a / b <= a
  {
    if b > 1.0 {
      Falls(a, 1.0, b);
    }
  }

  /** More hits than can be ideal score above 1 under a gentle discount. */
  lemma TooManyHits(flags: seq<bool>, n: nat) returns (d: Discount)
    requires Count(flags) > n > 0
    ensures Discounts(d) && Dcg(flags, d) > Ideal(n, d) > 0.0
  {
    var step := 1.0 / (n + 1) as real;
    AboveZero(1.0, (n + 1) as real);
    d := Gentle(step);
    GentleDiscounts(step);
    GentleHits(flags, step);
    GentleIdeal(n, step);
    IdealIsPositive(n, d);
    assert step * (n + 1) as real == 1.0;
    assert n as real * (1.0 + step) == n as real + step * n as real;
    assert step * n as real == 1.0 - step;
  }

  /** For a ranking that may repeat ids, nDCG is at most 1 under every discount if and
      only if the hits in the top k are no more than what can be ideal. */
  lemma BoundHoldsIffHitsFit(k: nat, retrieved: seq<Id>, relevant: seq<Id>)
    ensures (forall d :: Discounts(d) ==> Ndcg(k, retrieved, relevant, d) <= 1.0)
            <==> Count(Flags(Top(k, retrieved), relevant)) <= Min(k, |relevant|)
  {
    var flags, n := Flags(Top(k, retrieved), relevant), Min(k, |relevant|);
    if Count(flags) <= n {
      forall d | Discounts(d) ensures Ndcg(k, retrieved, relevant, d) <= 1.0 {
        DcgIsBounded(flags, d);
        if n > 0 {
          IdealIsPositive(n, d);
          if Count(flags) < n {
            IdealGrows(Count(flags), n, d);
          }
          Quotient(Dcg(flags, d), Ideal(n, d));
        }
      }
    } else if n == 0 {
      NoRoomNoHits(k, retrieved, relevant);
    } else {
      var d := TooManyHits(flags, n);
      AboveOne(Dcg(flags, d), Ideal(n, d));
    }
  }

  lemma NoRoomNoHits(k: nat, retrieved: seq<Id>, relevant: seq<Id>)
    requires Min(k, |relevant|) == 0
    ensures Count(Flags(Top(k, retrieved), relevant)) == 0
  {
    NoneCounted(Flags(Top(k, retrieved), relevant));
  }

  lemma {:induction false} NoneCounted(flags: seq<bool>)
    requires forall i :: 0 <= i < |flags| ==> !flags[i]
    ensures Count(flags) == 0
  {
    if flags != [] {
      NoneCounted(flags[..|flags| - 1]);
    }
  }

  /** A list that names an id twice can score above 1. */
  lemma DuplicatesBreakTheBound(id: Id, d: Discount)
    requires Discounts(d)
    ensures Ndcg(2, [id, id], [id], d) > 1.0
  {
    var flags := Flags([id, id], [id]);
    assert Top(2, [id, id]) == [id, id];
    assert flags == [true, true] && flags[..1] == [true] && flags[..1][..0] == [];
    assert Dcg(flags[..1], d) == d(0) && Dcg(flags, d) == d(0) + d(1);
    assert Ideal(1, d) == d(0) && d(0) > 0.0 && d(1) > 0.0;
    AboveOne(d(0) + d(1), d(0));
  }

  lemma AboveOne(a: real, b: real)
    requires a > b > 0.0
    ensures a / b > 1.0
  {
    StrictQuotient(b, a, b);
  }

  // ----- what reordering does

  lemma {:induction false} FoundBySet(relevant: seq<Id>, a: seq<Id>, b: seq<Id>)
    requires forall id :: id in a <==> id in b
    ensures Found(relevant, a) == Found(relevant, b)
  {
    if relevant != [] {
      FoundBySet(relevant[1..], a, b);
    }
  }

  /** Recall does not see the order of the top k, nor anything below it. */
  lemma RecallIgnoresOrder(k: nat, a: seq<Id>, b: seq<Id>, relevant: seq<Id>)
    requires multiset(Top(k, a)) == multiset(Top(k, b))
    ensures RecallAt(k, a, relevant) == RecallAt(k, b, relevant)
  {
    forall id ensures id in Top(k, a) <==> id in Top(k, b) {
      assert id in Top(k, a) <==> id in multiset(Top(k, a));
      assert id in Top(k, b) <==> id in multiset(Top(k, b));
    }
    FoundBySet(relevant, Top(k, a), Top(k, b));
  }

  function Swapped<T>(s: seq<T>, i: nat): seq<T>
    requires i + 1 < |s|
  {
    s[i := s[i + 1]][i + 1 := s[i]]
  }

  lemma {:induction false} SwapGains(flags: seq<bool>, i: nat, d: Discount)
    requires i + 1 < |flags| && !flags[i] && flags[i + 1]
    ensures Dcg(Swapped(flags, i), d) == Dcg(flags, d) + d(i) - d(i + 1)
  {
    var n, other := |flags| - 1, Swapped(flags, i);
    if i + 1 < n {
      SwapGains(flags[..n], i, d);
      assert other[..n] == Swapped(flags[..n], i);
    } else {
      assert other[..n][..i] == flags[..n][..i];
    }
  }

  /** Promoting a relevant id past an irrelevant neighbour inside the top k raises
      nDCG and leaves recall alone. */
  lemma PromotionPays(k: nat, retrieved: seq<Id>, relevant: seq<Id>, d: Discount, i: nat)
    requires Discounts(d) && i + 1 < k && i + 1 < |retrieved|
    requires retrieved[i] !in relevant && retrieved[i + 1] in relevant
    ensures Ndcg(k, Swapped(retrieved, i), relevant, d) > Ndcg(k, retrieved, relevant, d)
    ensures RecallAt(k, Swapped(retrieved, i), relevant) == RecallAt(k, retrieved, relevant)
  {
    var window, other := Top(k, retrieved), Swapped(retrieved, i);
    assert Top(k, other) == Swapped(window, i);
    assert Flags(Swapped(window, i), relevant) == Swapped(Flags(window, relevant), i);
    SwapGains(Flags(window, relevant), i, d);
    assert d(i) > d(i + 1);
    var ideal := Ideal(Min(k, |relevant|), d);
    IdealIsPositive(Min(k, |relevant|), d);
    StrictQuotient(Dcg(Flags(window, relevant), d), Dcg(Flags(Top(k, other), relevant), d), ideal);
    RecallIgnoresOrder(k, other, retrieved, relevant);
  }

  lemma StrictQuotient(a: real, b: real, c: real)
    requires a < b && c > 0.0
    ensures a / c < b / c
  {
  }

  /** The three figures of one window vanish together: nDCG and recall are 0 exactly
      when nothing relevant is in the top k. */
  lemma FiguresVanishTogether(k: nat, retrieved: seq<Id>, relevant: seq<Id>, d: Discount)
    requires Discounts(d)
    ensures var none := forall id :: id in Top(k, retrieved) ==> id !in relevant;
            (Ndcg(k, retrieved, relevant, d) == 0.0 <==> none) && (RecallAt(k, retrieved, relevant) == 0.0 <==> none)
  {
    hide Ndcg;
    hide RecallAt;
    hide Found;
    RecallVanishes(k, retrieved, relevant);
    NdcgVanishes(k, retrieved, relevant, d);
  }

  lemma RecallVanishes(k: nat, retrieved: seq<Id>, relevant: seq<Id>)
    ensures RecallAt(k, retrieved, relevant) == 0.0 <==> forall id :: id in Top(k, retrieved) ==> id !in relevant
  {
    NothingFound(relevant, Top(k, retrieved));
  }

  lemma NdcgVanishes(k: nat, retrieved: seq<Id>, relevant: seq<Id>, d: Discount)
    requires Discounts(d)
    ensures Ndcg(k, retrieved, relevant, d) == 0.0 <==> forall id :: id in Top(k, retrieved) ==> id !in relevant
  {
    var window := Top(k, retrieved);
    var flags := Flags(window, relevant);
    NothingCounted(flags, d);
    assert (forall i :: 0 <= i < |flags| ==> !flags[i]) <==> (forall id :: id in window ==> id !in relevant) by {
      if forall i :: 0 <= i < |flags| ==> !flags[i] {
        forall id | id in window ensures id !in relevant {
          var i :| 0 <= i < |window| && window[i] == id;
          assert !flags[i];
        }
      }
    }
    if k > 0 && |relevant| > 0 {
      IdealIsPositive(Min(k, |relevant|), d);
    }
  }

  lemma {:induction false} NothingFound(relevant: seq<Id>, window: seq<Id>)
    ensures |Found(relevant, window)| == 0 <==> forall id :: id in window ==> id !in relevant
  {
    if relevant != [] {
      NothingFound(relevant[1..], window);
      assert relevant == [relevant[0]] + relevant[1..];
    }
  }

  lemma {:induction false} NothingCounted(flags: seq<bool>, d: Discount)
    requires Discounts(d)
    ensures Dcg(flags, d) >= 0.0
    ensures Dcg(flags, d) == 0.0 <==> forall i :: 0 <= i < |flags| ==> !flags[i]
  {
    if flags != [] {
      var n := |flags| - 1;
      NothingCounted(flags[..n], d);
      assert d(n) > 0.0;
      assert forall i :: 0 <= i < n ==> flags[..n][i] == flags[i];
    }
  }
}
