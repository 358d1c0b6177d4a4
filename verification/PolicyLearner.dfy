/** The bandit's posterior in apps/api/src/learning/bandit.ts, over exact reals:
    the prior, the reward, and what a history of updates and revisions adds up to. */
module PolicyLearner {
  import opened Options
  import opened UnitInterval

  datatype Model = Haiku | Sonnet | Opus | OpusPlan | Fable | Unlisted(name: string)

  datatype Effort = Low | Medium | High | XHigh | Max

  datatype Arm = Arm(model: Model, effort: Option<Effort>)

  /** What identifies a stored row. */
  datatype Key = Key(workspace: Option<string>, category: string, arm: Arm)

  datatype Row = Row(alpha: real, beta: real, trials: nat, totalReward: real, meanCost: real, meanDuration: real)

  // ----- the reward

  datatype Status = Succeeded | Failed | Interrupted

  datatype Outcome = Outcome(
    status: Status,
    rating: Option<real>,
    hitLimit: bool,
    toolErrors: nat,
    costUsd: real,
    durationMs: real)

  /** `Math.exp` as far as it matters: in (0, 1] at and below zero. */
  ghost predicate DecaysLikeExp(exp: real -> real) {
    forall x :: x <= 0.0 ==> 0.0 < exp(x) <= 1.0
  }

  function Quality(o: Outcome): real {
    if o.rating.Some? then (o.rating.value + 1.0) / 2.0
    else if o.status == Failed then 0.05
    else if o.status == Interrupted then 0.4
    else
      var errors := if o.toolErrors as real * 0.04 < 0.2 then o.toolErrors as real * 0.04 else 0.2;
      (if o.hitLimit then 0.8 - 0.25 else 0.8) - errors
  }

  function Reward(o: Outcome, exp: real -> real): real
    requires o.durationMs >= 0.0
  {
    var cost := exp(-o.costUsd / 0.35);
    var latency := 1.0 / (1.0 + o.durationMs / 120_000.0);
    Clamp01(0.72 * Clamp01(Quality(o)) + 0.16 * cost + 0.12 * latency)
  }

  lemma LatencyInUnit(durationMs: real)
    requires durationMs >= 0.0
    ensures 0.0 < 1.0 / (1.0 + durationMs / 120_000.0) <= 1.0
  {
    var d := 1.0 + durationMs / 120_000.0;
    assert d >= 1.0;
    Reciprocal(d);
  }

  lemma Reciprocal(d: real)
    requires d >= 1.0
    ensures 0.0 < 1.0 / d <= 1.0
  {
    var q := 1.0 / d;
    assert q * d == 1.0;
  }

  /** The weights sum to one, so a success or any rated run is scored without the
      outer clamp ever cutting it; and a rating overrides everything inferred. */
  lemma RewardIsUnclamped(o: Outcome, exp: real -> real)
    requires DecaysLikeExp(exp) && o.costUsd >= 0.0 && o.durationMs >= 0.0
    ensures Reward(o, exp) == 0.72 * Clamp01(Quality(o)) + 0.16 * exp(-o.costUsd / 0.35)
                              + 0.12 * (1.0 / (1.0 + o.durationMs / 120_000.0))
    ensures 0.0 < Reward(o, exp) <= 1.0
    ensures o.rating.Some? ==>
              forall status, limit, errors: nat ::
                Reward(o.(status := status, hitLimit := limit, toolErrors := errors), exp) == Reward(o, exp)
  {
    LatencyInUnit(o.durationMs);
    assert -o.costUsd / 0.35 <= 0.0;
    assert 0.0 < exp(-o.costUsd / 0.35) <= 1.0;
  }

  // ----- the prior

  datatype Profile = Profile(inPrice: real, outPrice: real, takesEffort: bool, durationMs: real)

  function ProfileOf(model: Model): Profile {
    match model
    case Haiku => Profile(1.0, 5.0, false, 25_000.0)
    case Sonnet => Profile(2.0, 10.0, true, 45_000.0)
    case Opus => Profile(5.0, 25.0, true, 60_000.0)
    case OpusPlan => Profile(5.0, 25.0, true, 60_000.0)
    case Fable => Profile(10.0, 50.0, true, 75_000.0)
    case Unlisted(_) => Profile(5.0, 25.0, true, 60_000.0)
  }

  const REFERENCE_INPUT := 42_000.0
  const REFERENCE_OUTPUT := 3_200.0
  const PRIOR_STRENGTH := 4.0

  /** How much an effort level multiplies the output and the time. */
  function FactorOf(effort: Option<Effort>): (real, real) {
    match effort
    case None => (1.0, 1.0)
    case Some(Low) => (0.6, 0.6)
    case Some(Medium) => (1.0, 1.0)
    case Some(High) => (1.6, 1.6)
    case Some(XHigh) => (2.4, 2.4)
    case Some(Max) => (3.2, 3.0)
  }

  /** `Math.round`. */
  function Round(x: real): real {
    (x + 0.5).Floor as real
  }

  /** The outcome the prior prices: an ordinary success on the arm. */
  function TypicalRun(arm: Arm): (o: Outcome)
    ensures o.costUsd >= 0.0 && o.durationMs >= 0.0
  {
    var profile := ProfileOf(arm.model);
    var level := if arm.effort.Some? then arm.effort else if profile.takesEffort then Some(High) else None;
    var (output, duration) := FactorOf(level);
    Outcome(Succeeded, None, false, 0,
            (REFERENCE_INPUT * profile.inPrice + REFERENCE_OUTPUT * output * profile.outPrice) / 1_000_000.0,
            Round(profile.durationMs * duration))
  }

  function PriorMean(arm: Arm, exp: real -> real): real {
    Reward(TypicalRun(arm), exp)
  }

  /** `armPrior`. */
  function Prior(arm: Arm, exp: real -> real): (real, real) {
    var mean := PriorMean(arm, exp);
    (1.0 + PRIOR_STRENGTH * mean, 1.0 + PRIOR_STRENGTH * (1.0 - mean))
  }

  /** Every arm opens with a proper belief worth exactly six. */
  lemma PriorIsProper(arm: Arm, exp: real -> real)
    requires DecaysLikeExp(exp)
    ensures var (alpha, beta) := Prior(arm, exp);
            alpha + beta == 6.0 && alpha > 1.0 && beta >= 1.0
  {
    RewardIsUnclamped(TypicalRun(arm), exp);
  }

  // ----- stored rows

  type Arms = map<Key, Row>

  function Opening(key: Key, exp: real -> real): Row {
    var (alpha, beta) := Prior(key.arm, exp);
    Row(alpha, beta, 0, 0.0, 0.0, 0.0)
  }

  /** `findOrCreate`. */
  function Found(arms: Arms, key: Key, exp: real -> real): Row {
    if key in arms then arms[key] else Opening(key, exp)
  }

  function Folded(row: Row, reward: real, cost: real, duration: real): Row {
    var trials := row.trials + 1;
    Row(row.alpha + reward, row.beta + (1.0 - reward), trials, row.totalReward + reward,
        row.meanCost + (cost - row.meanCost) / trials as real,
        row.meanDuration + (duration - row.meanDuration) / trials as real)
  }

  /** `update`. */
  function Updated(arms: Arms, key: Key, reward: real, cost: real, duration: real, exp: real -> real): Arms {
    arms[key := Folded(Found(arms, key, exp), Clamp01(reward), cost, duration)]
  }

  function AtLeast(floor: real, x: real): real {
    if x < floor then floor else x
  }

  function Corrected(row: Row, key: Key, previous: real, reward: real, exp: real -> real): Row {
    var (alpha, beta) := Prior(key.arm, exp);
    row.(alpha := AtLeast(alpha, row.alpha - previous + reward),
         beta := AtLeast(beta, row.beta - (1.0 - previous) + (1.0 - reward)),
         totalReward := row.totalReward - previous + reward)
  }

  /** `revise`. */
  function Revised(arms: Arms, key: Key, previous: Option<real>, reward: real, exp: real -> real): Arms {
    if previous.None? then Updated(arms, key, Clamp01(reward), 0.0, 0.0, exp)
    else if Clamp01(previous.value) == Clamp01(reward) then arms
    else arms[key := Corrected(Found(arms, key, exp), key, Clamp01(previous.value), Clamp01(reward), exp)]
  }

  /** The rows a reset is about: a workspace's, or those of one of its categories. An
      empty category counts as none. */
  predicate Under(key: Key, workspace: Option<string>, category: Option<string>) {
    key.workspace == workspace && (category == None || category == Some("") || category == Some(key.category))
  }

  /** `reset`. */
  function Dropped(arms: Arms, workspace: Option<string>, category: Option<string>): Arms {
    map key | key in arms && !Under(key, workspace, category) :: arms[key]
  }

  /** A reset leaves other workspaces alone, and with a category that is not empty the
      other categories; what it leaves it leaves as it was. */
  lemma ResetIsScoped(arms: Arms, workspace: Option<string>, category: Option<string>, key: Key)
    requires key in arms
    ensures key.workspace != workspace ==> key in Dropped(arms, workspace, category)
    ensures key.workspace == workspace && (category == None || category == Some("")) ==> key !in Dropped(arms, workspace, category)
    ensures key.workspace == workspace && category.Some? && category.value != "" ==>
              (key in Dropped(arms, workspace, category) <==> key.category != category.value)
    ensures key in Dropped(arms, workspace, category) ==> Dropped(arms, workspace, category)[key] == arms[key]
  {
  }

  lemma DroppedIsFewer(arms: Arms, workspace: Option<string>, category: Option<string>)
    ensures |Dropped(arms, workspace, category)| <= |arms|
  {
    hide Under;
    var kept := Dropped(arms, workspace, category).Keys;
    assert arms.Keys == kept + (arms.Keys - kept);
  }

  // ----- no belief falls below the prior

  /** A correction moves the belief by the difference of the two rewards, as far as the
      arm's prior, and no further. */
  lemma CorrectionStopsAtThePrior(arms: Arms, key: Key, previous: real, reward: real, exp: real -> real)
    requires Clamp01(previous) != Clamp01(reward)
    ensures var (alpha, beta) := Prior(key.arm, exp);
            var before, after := Found(arms, key, exp), Found(Revised(arms, key, Some(previous), reward, exp), key, exp);
            var delta := Clamp01(reward) - Clamp01(previous);
            && after.alpha == (if before.alpha + delta >= alpha then before.alpha + delta else alpha)
            && after.beta == (if before.beta - delta >= beta then before.beta - delta else beta)
            && after.totalReward == before.totalReward + delta && after.trials == before.trials
            && after.meanCost == before.meanCost && after.meanDuration == before.meanDuration
  {
    hide Prior;
  }

  ghost predicate AbovePrior(row: Row, key: Key, exp: real -> real) {
    row.alpha >= Prior(key.arm, exp).0 && row.beta >= Prior(key.arm, exp).1
  }

  ghost predicate AllAbovePrior(arms: Arms, exp: real -> real) {
    forall key :: AbovePrior(Found(arms, key, exp), key, exp)
  }

  lemma UpdateStaysAbove(arms: Arms, key: Key, reward: real, cost: real, duration: real, exp: real -> real)
    requires AllAbovePrior(arms, exp)
    ensures AllAbovePrior(Updated(arms, key, reward, cost, duration, exp), exp)
  {
    hide Prior;
    var after := Updated(arms, key, reward, cost, duration, exp);
    forall k ensures AbovePrior(Found(after, k, exp), k, exp) {
      assert AbovePrior(Found(arms, k, exp), k, exp);
    }
  }

  lemma RevisionStaysAbove(arms: Arms, key: Key, previous: Option<real>, reward: real, exp: real -> real)
    requires AllAbovePrior(arms, exp)
    ensures AllAbovePrior(Revised(arms, key, previous, reward, exp), exp)
  {
    hide Prior;
    if previous.None? {
      UpdateStaysAbove(arms, key, Clamp01(reward), 0.0, 0.0, exp);
    } else {
      hide Updated;
      var after := Revised(arms, key, previous, reward, exp);
      forall k ensures AbovePrior(Found(after, k, exp), k, exp) {
        assert AbovePrior(Found(arms, k, exp), k, exp);
      }
    }
  }

  lemma OpeningStaysAbove(arms: Arms, key: Key, exp: real -> real)
    requires AllAbovePrior(arms, exp)
    ensures AllAbovePrior(arms[key := Found(arms, key, exp)], exp)
  {
    hide Prior;
    var after := arms[key := Found(arms, key, exp)];
    forall k ensures AbovePrior(Found(after, k, exp), k, exp) {
      assert AbovePrior(Found(arms, k, exp), k, exp);
    }
  }

  lemma ResetStaysAbove(arms: Arms, workspace: Option<string>, category: Option<string>, exp: real -> real)
    requires AllAbovePrior(arms, exp)
    ensures AllAbovePrior(Dropped(arms, workspace, category), exp)
  {
    hide Prior;
    hide Under;
    var after := Dropped(arms, workspace, category);
    forall k ensures AbovePrior(Found(after, k, exp), k, exp) {
      assert AbovePrior(Found(arms, k, exp), k, exp);
      OpeningIsPrior(k, exp);
    }
  }

  lemma OpeningIsPrior(key: Key, exp: real -> real)
    ensures AbovePrior(Opening(key, exp), key, exp)
  {
  }

  // ----- what has been observed

  /** One run that was folded in, with the reward last applied for it. */
  datatype Entry = Entry(run: string, key: Key, reward: real, cost: real, duration: real)

  function Count(ledger: seq<Entry>, key: Key): nat {
    if ledger == [] then 0
    else (if ledger[0].key == key then 1 else 0) + Count(ledger[1..], key)
  }

  /** The sum of `f` over a key's entries. */
  function Sum(ledger: seq<Entry>, key: Key, f: Entry -> real): real {
    if ledger == [] then 0.0
    else (if ledger[0].key == key then f(ledger[0]) else 0.0) + Sum(ledger[1..], key, f)
  }

  const RewardOf: Entry -> real := (e: Entry) => e.reward
  const CostOf: Entry -> real := (e: Entry) => e.cost
  const DurationOf: Entry -> real := (e: Entry) => e.duration

  predicate Scored(ledger: seq<Entry>) {
    forall i :: 0 <= i < |ledger| ==> 0.0 <= ledger[i].reward <= 1.0
  }

  /** The row is exactly the prior plus what the ledger holds for its key. */
  ghost predicate Exact(row: Row, ledger: seq<Entry>, key: Key, exp: real -> real) {
    var (alpha, beta) := Prior(key.arm, exp);
    var n, sum := Count(ledger, key), Sum(ledger, key, RewardOf);
    && row.trials == n && row.totalReward == sum
    && row.alpha == alpha + sum && row.beta == beta + (n as real - sum)
    && row.meanCost * n as real == Sum(ledger, key, CostOf)
    && row.meanDuration * n as real == Sum(ledger, key, DurationOf)
  }

  ghost predicate AllExact(arms: Arms, ledger: seq<Entry>, exp: real -> real) {
    Scored(ledger) && forall key :: Exact(Found(arms, key, exp), ledger, key, exp)
  }

  lemma {:induction false} CountOfAppend(ledger: seq<Entry>, e: Entry, key: Key)
    ensures Count(ledger + [e], key) == Count(ledger, key) + if e.key == key then 1 else 0
  {
    if ledger == [] {
      assert (ledger + [e])[1..] == [];
    } else {
      assert (ledger + [e])[1..] == ledger[1..] + [e];
      CountOfAppend(ledger[1..], e, key);
    }
  }

  lemma {:induction false} SumOfAppend(ledger: seq<Entry>, e: Entry, key: Key, f: Entry -> real)
    ensures Sum(ledger + [e], key, f) == Sum(ledger, key, f) + if e.key == key then f(e) else 0.0
  {
    if ledger == [] {
      assert (ledger + [e])[1..] == [];
    } else {
      assert (ledger + [e])[1..] == ledger[1..] + [e];
      SumOfAppend(ledger[1..], e, key, f);
    }
  }

  lemma {:induction false} SumOfChange(ledger: seq<Entry>, i: nat, e: Entry, key: Key, f: Entry -> real)
    requires i < |ledger| && e.key == ledger[i].key
    ensures Count(ledger[i := e], key) == Count(ledger, key)
    ensures Sum(ledger[i := e], key, f) ==
            Sum(ledger, key, f) + if e.key == key then f(e) - f(ledger[i]) else 0.0
  {
    var changed := ledger[i := e];
    if i == 0 {
      assert changed[1..] == ledger[1..];
    } else {
      assert changed[1..] == ledger[1..][i - 1 := e];
      SumOfChange(ledger[1..], i - 1, e, key, f);
    }
  }

  /** Scores stay between nothing and one for each run, with or without any one of them. */
  lemma {:induction false} SumBounds(ledger: seq<Entry>, key: Key)
    requires Scored(ledger)
    ensures 0.0 <= Sum(ledger, key, RewardOf) <= Count(ledger, key) as real
    ensures forall i :: 0 <= i < |ledger| && ledger[i].key == key ==>
              ledger[i].reward <= Sum(ledger, key, RewardOf)
              && Sum(ledger, key, RewardOf) - ledger[i].reward <= Count(ledger, key) as real - 1.0
  {
    if ledger != [] {
      SumBounds(ledger[1..], key);
      forall i | 0 < i < |ledger| && ledger[i].key == key
        ensures ledger[i].reward <= Sum(ledger, key, RewardOf)
                && Sum(ledger, key, RewardOf) - ledger[i].reward <= Count(ledger, key) as real - 1.0
      {
        assert ledger[1..][i - 1] == ledger[i];
      }
    }
  }

  /** A running mean is the exact average. */
  lemma MeanStep(mean: real, n: nat, x: real, sum: real)
    requires mean * n as real == sum
    ensures (mean + (x - mean) / (n + 1) as real) * (n + 1) as real == sum + x
  {
    var m := (n + 1) as real;
    var step := (x - mean) / m;
    assert step * m == x - mean;
    assert (mean + step) * m == mean * m + step * m;
    assert mean * m == mean * n as real + mean;
  }

  /** A first observation of a run. */
  lemma UpdateIsExact(arms: Arms, ledger: seq<Entry>, exp: real -> real, run: string, key: Key, reward: real, cost: real, duration: real)
    requires AllExact(arms, ledger, exp)
    ensures AllExact(Updated(arms, key, reward, cost, duration, exp),
                     ledger + [Entry(run, key, Clamp01(reward), cost, duration)], exp)
  {
    hide Prior;
    hide Exact;
    var e := Entry(run, key, Clamp01(reward), cost, duration);
    var after, longer := Updated(arms, key, reward, cost, duration, exp), ledger + [e];
    forall k ensures Exact(Found(after, k, exp), longer, k, exp) {
      FoldedIsExact(Found(arms, k, exp), ledger, exp, e, k);
    }
  }

  lemma FoldedIsExact(row: Row, ledger: seq<Entry>, exp: real -> real, e: Entry, key: Key)
    requires Exact(row, ledger, key, exp)
    ensures Exact(if e.key == key then Folded(row, e.reward, e.cost, e.duration) else row, ledger + [e], key, exp)
  {
    hide Prior;
    hide Sum;
    hide Count;
    CountOfAppend(ledger, e, key);
    SumOfAppend(ledger, e, key, RewardOf);
    SumOfAppend(ledger, e, key, CostOf);
    SumOfAppend(ledger, e, key, DurationOf);
    if e.key == key {
      MeanStep(row.meanCost, row.trials, e.cost, Sum(ledger, key, CostOf));
      MeanStep(row.meanDuration, row.trials, e.duration, Sum(ledger, key, DurationOf));
    }
  }

  /** A revision that names the reward last applied: the clamp changes nothing, and
      the posterior is where a single observation of the new reward would have put it. */
  lemma RevisionIsExact(arms: Arms, ledger: seq<Entry>, exp: real -> real, i: nat, reward: real)
    requires AllExact(arms, ledger, exp) && i < |ledger|
    ensures var e := ledger[i];
            && AllExact(Revised(arms, e.key, Some(e.reward), reward, exp),
                        ledger[i := e.(reward := Clamp01(reward))], exp)
            && ClampIsIdle(Found(arms, e.key, exp), e.key, e.reward, Clamp01(reward), exp)
  {
    hide Prior;
    hide Exact;
    var e := ledger[i];
    var f := e.(reward := Clamp01(reward));
    var after, changed := Revised(arms, e.key, Some(e.reward), reward, exp), ledger[i := f];
    assert Exact(Found(arms, e.key, exp), ledger, e.key, exp);
    CorrectedIsExact(Found(arms, e.key, exp), ledger, exp, i, f);
    forall k ensures Exact(Found(after, k, exp), changed, k, exp) {
      assert Exact(Found(arms, k, exp), ledger, k, exp);
      if k != e.key {
        OthersStayExact(Found(arms, k, exp), ledger, exp, i, f, k);
      } else if f.reward == e.reward {
        assert changed == ledger;
      }
    }
  }

  lemma CorrectedIsExact(row: Row, ledger: seq<Entry>, exp: real -> real, i: nat, f: Entry)
    requires Scored(ledger) && i < |ledger| && Exact(row, ledger, ledger[i].key, exp)
    requires f == ledger[i].(reward := f.reward) && 0.0 <= f.reward <= 1.0
    ensures ClampIsIdle(row, f.key, ledger[i].reward, f.reward, exp)
    ensures Exact(Corrected(row, f.key, ledger[i].reward, f.reward, exp), ledger[i := f], f.key, exp)
  {
    hide Prior;
    hide Sum;
    hide Count;
    SumBounds(ledger, f.key);
    SumOfChange(ledger, i, f, f.key, RewardOf);
    SumOfChange(ledger, i, f, f.key, CostOf);
    SumOfChange(ledger, i, f, f.key, DurationOf);
  }

  lemma OthersStayExact(row: Row, ledger: seq<Entry>, exp: real -> real, i: nat, f: Entry, key: Key)
    requires i < |ledger| && f.key == ledger[i].key != key && Exact(row, ledger, key, exp)
    ensures Exact(row, ledger[i := f], key, exp)
  {
    hide Prior;
    hide Sum;
    hide Count;
    SumOfChange(ledger, i, f, key, RewardOf);
    SumOfChange(ledger, i, f, key, CostOf);
    SumOfChange(ledger, i, f, key, DurationOf);
  }

  /** Neither floor of a correction is reached from above. */
  ghost predicate ClampIsIdle(row: Row, key: Key, previous: real, reward: real, exp: real -> real) {
    var (alpha, beta) := Prior(key.arm, exp);
    alpha <= row.alpha - previous + reward && beta <= row.beta - (1.0 - previous) + (1.0 - reward)
  }

  /** Only such a revision is exact: naming any other reward leaves the total wrong. */
  lemma OnlyHonestRevisionsAreExact(arms: Arms, ledger: seq<Entry>, exp: real -> real, i: nat, named: real, reward: real)
    requires AllExact(arms, ledger, exp) && i < |ledger|
    ensures var e := ledger[i];
            AllExact(Revised(arms, e.key, Some(named), reward, exp), ledger[i := e.(reward := Clamp01(reward))], exp)
            <==> Clamp01(named) == e.reward
  {
    var e := ledger[i];
    var after := Revised(arms, e.key, Some(named), reward, exp);
    if Clamp01(named) == e.reward {
      RevisionIsExact(arms, ledger, exp, i, reward);
      assert Revised(arms, e.key, Some(named), reward, exp) == Revised(arms, e.key, Some(e.reward), reward, exp);
    } else {
      var f := e.(reward := Clamp01(reward));
      SumOfChange(ledger, i, f, e.key, RewardOf);
      assert Exact(Found(arms, e.key, exp), ledger, e.key, exp);
      assert Found(after, e.key, exp).totalReward != Sum(ledger[i := f], e.key, RewardOf);
      assert !Exact(Found(after, e.key, exp), ledger[i := f], e.key, exp);
    }
  }

  /** What is left of a ledger when the learner forgets. */
  function Remaining(ledger: seq<Entry>, workspace: Option<string>, category: Option<string>): seq<Entry> {
    if ledger == [] then []
    else
      (if Under(ledger[0].key, workspace, category) then [] else [ledger[0]])
      + Remaining(ledger[1..], workspace, category)
  }

  lemma {:induction false} SumOfRemaining(ledger: seq<Entry>, workspace: Option<string>, category: Option<string>,
                                          key: Key, f: Entry -> real)
    ensures var rest, gone := Remaining(ledger, workspace, category), Under(key, workspace, category);
            && Count(rest, key) == (if gone then 0 else Count(ledger, key))
            && Sum(rest, key, f) == (if gone then 0.0 else Sum(ledger, key, f))
  {
    hide Under;
    if ledger != [] {
      var rest := Remaining(ledger[1..], workspace, category);
      SumOfRemaining(ledger[1..], workspace, category, key, f);
      OneInFront(ledger[0], rest, key, f);
      OneInFront(ledger[0], ledger[1..], key, f);
      hide Sum;
      hide Count;
      assert [] + rest == rest && [ledger[0]] + ledger[1..] == ledger;
    }
  }

  lemma OneInFront(e: Entry, rest: seq<Entry>, key: Key, f: Entry -> real)
    ensures Count([e] + rest, key) == (if e.key == key then 1 else 0) + Count(rest, key)
    ensures Sum([e] + rest, key, f) == (if e.key == key then f(e) else 0.0) + Sum(rest, key, f)
  {
    assert ([e] + rest)[1..] == rest;
  }

  lemma {:induction false} RemainingIsScored(ledger: seq<Entry>, workspace: Option<string>, category: Option<string>)
    requires Scored(ledger)
    ensures Scored(Remaining(ledger, workspace, category))
  {
    if ledger != [] {
      assert forall i :: 0 <= i < |ledger[1..]| ==> ledger[1..][i] == ledger[i + 1];
      RemainingIsScored(ledger[1..], workspace, category);
    }
  }

  /** Forgetting whole rows keeps the others exact, and the forgotten ones open anew. */
  lemma ForgettingIsExact(arms: Arms, ledger: seq<Entry>, exp: real -> real, workspace: Option<string>, category: Option<string>)
    requires AllExact(arms, ledger, exp)
    ensures AllExact(Dropped(arms, workspace, category), Remaining(ledger, workspace, category), exp)
  {
    hide Exact;
    hide Under;
    RemainingIsScored(ledger, workspace, category);
    var after, rest := Dropped(arms, workspace, category), Remaining(ledger, workspace, category);
    forall key ensures Exact(Found(after, key, exp), rest, key, exp) {
      assert Exact(Found(arms, key, exp), ledger, key, exp);
      ForgottenIsExact(Found(arms, key, exp), ledger, key, exp, workspace, category);
    }
  }

  lemma ForgottenIsExact(row: Row, ledger: seq<Entry>, key: Key, exp: real -> real, workspace: Option<string>, category: Option<string>)
    requires Exact(row, ledger, key, exp)
    ensures Exact(if Under(key, workspace, category) then Opening(key, exp) else row,
                  Remaining(ledger, workspace, category), key, exp)
  {
    hide Prior;
    hide Sum;
    hide Count;
    hide Under;
    SumOfRemaining(ledger, workspace, category, key, RewardOf);
    SumOfRemaining(ledger, workspace, category, key, CostOf);
    SumOfRemaining(ledger, workspace, category, key, DurationOf);
  }

  // ----- histories

  /** What is asked of the learner: fold a run in, change its reward, forget what it
      holds of a workspace, or open the row of an arm it may choose. A run that was
      never folded in is revised with no previous reward. */
  datatype Event =
    | Observe(run: string, key: Key, reward: real, cost: real, duration: real)
    | Rate(run: string, key: Key, reward: real)
    | Forget(workspace: Option<string>, category: Option<string>)
    | Open(key: Key)

  function IndexOf(ledger: seq<Entry>, run: string): (i: nat)
    ensures i <= |ledger| && (i < |ledger| ==> ledger[i].run == run)
  {
    if ledger == [] || ledger[0].run == run then 0 else 1 + IndexOf(ledger[1..], run)
  }

  function LedgerAfter(ledger: seq<Entry>, e: Event): seq<Entry> {
    match e
    case Observe(run, key, reward, cost, duration) => ledger + [Entry(run, key, Clamp01(reward), cost, duration)]
    case Rate(run, key, reward) =>
      var i := IndexOf(ledger, run);
      if i == |ledger| then ledger + [Entry(run, key, Clamp01(reward), 0.0, 0.0)]
      else ledger[i := ledger[i].(reward := Clamp01(reward))]
    case Forget(workspace, category) => Remaining(ledger, workspace, category)
    case Open(_) => ledger
  }

  function ArmsAfter(arms: Arms, ledger: seq<Entry>, e: Event, exp: real -> real): Arms {
    match e
    case Observe(run, key, reward, cost, duration) => Updated(arms, key, reward, cost, duration, exp)
    case Rate(run, key, reward) =>
      var i := IndexOf(ledger, run);
      if i == |ledger| then Revised(arms, key, None, reward, exp)
      else Revised(arms, ledger[i].key, Some(ledger[i].reward), reward, exp)
    case Forget(workspace, category) => Dropped(arms, workspace, category)
    case Open(key) => arms[key := Found(arms, key, exp)]
  }

  function FinalLedger(events: seq<Event>): seq<Entry> {
    if events == [] then [] else LedgerAfter(FinalLedger(events[..|events| - 1]), events[|events| - 1])
  }

  function FinalArms(events: seq<Event>, exp: real -> real): Arms {
    if events == [] then map[]
    else
      var before := events[..|events| - 1];
      ArmsAfter(FinalArms(before, exp), FinalLedger(before), events[|events| - 1], exp)
  }

  lemma NothingIsExact(exp: real -> real)
    ensures AllExact(map[], [], exp)
  {
  }

  lemma StepIsExact(arms: Arms, ledger: seq<Entry>, e: Event, exp: real -> real)
    requires AllExact(arms, ledger, exp)
    ensures AllExact(ArmsAfter(arms, ledger, e, exp), LedgerAfter(ledger, e), exp)
  {
    match e
    case Observe(run, key, reward, cost, duration) => UpdateIsExact(arms, ledger, exp, run, key, reward, cost, duration);
    case Rate(run, key, reward) =>
      var i := IndexOf(ledger, run);
      if i == |ledger| {
        UpdateIsExact(arms, ledger, exp, run, key, Clamp01(reward), 0.0, 0.0);
      } else {
        RevisionIsExact(arms, ledger, exp, i, reward);
      }
    case Forget(workspace, category) => ForgettingIsExact(arms, ledger, exp, workspace, category);
    case Open(key) => OpeningIsExact(arms, ledger, exp, key);
  }

  lemma OpeningIsExact(arms: Arms, ledger: seq<Entry>, exp: real -> real, key: Key)
    requires AllExact(arms, ledger, exp)
    ensures AllExact(arms[key := Found(arms, key, exp)], ledger, exp)
  {
    hide Exact;
    hide Prior;
    var after := arms[key := Found(arms, key, exp)];
    forall k ensures Exact(Found(after, k, exp), ledger, k, exp) {
      assert Found(after, k, exp) == Found(arms, k, exp);
    }
  }

  /** After any history, every row is its prior plus the rewards now in force. */
  lemma {:induction false} HistoriesAreExact(events: seq<Event>, exp: real -> real)
    ensures AllExact(FinalArms(events, exp), FinalLedger(events), exp)
  {
    if events == [] {
      NothingIsExact(exp);
    } else {
      var before := events[..|events| - 1];
      HistoriesAreExact(before, exp);
      StepIsExact(FinalArms(before, exp), FinalLedger(before), events[|events| - 1], exp);
    }
  }

  /** The belief is worth six plus one for each trial, and the means are averages. */
  lemma BeliefIsWorthItsTrials(events: seq<Event>, key: Key, exp: real -> real)
    requires DecaysLikeExp(exp)
    ensures var row := Found(FinalArms(events, exp), key, exp);
            var ledger := FinalLedger(events);
            && row.alpha + row.beta == 6.0 + row.trials as real
            && row.alpha > 1.0 && row.beta >= 1.0
            && (row.trials > 0 ==> row.meanCost == Sum(ledger, key, CostOf) / row.trials as real
                                   && row.meanDuration == Sum(ledger, key, DurationOf) / row.trials as real)
  {
    hide Prior;
    hide Sum;
    hide FinalArms;
    hide FinalLedger;
    hide Found;
    HistoriesAreExact(events, exp);
    PriorIsProper(key.arm, exp);
    var row, ledger := Found(FinalArms(events, exp), key, exp), FinalLedger(events);
    assert Exact(row, ledger, key, exp);
    SumBounds(ledger, key);
    if row.trials > 0 {
      Quotient(row.meanCost, row.trials as real, Sum(ledger, key, CostOf));
      Quotient(row.meanDuration, row.trials as real, Sum(ledger, key, DurationOf));
    }
  }

  lemma Quotient(q: real, n: real, sum: real)
    requires n > 0.0 && q * n == sum
    ensures q == sum / n
  {
  }

  /** The order of the history does not matter: two histories that leave the same
      runs with the same rewards leave the same belief. */
  lemma OrderDoesNotMatter(a: seq<Event>, b: seq<Event>, key: Key, exp: real -> real)
    requires multiset(FinalLedger(a)) == multiset(FinalLedger(b))
    ensures var p, q := Found(FinalArms(a, exp), key, exp), Found(FinalArms(b, exp), key, exp);
            p.alpha == q.alpha && p.beta == q.beta && p.trials == q.trials && p.totalReward == q.totalReward
  {
    HistoriesAreExact(a, exp);
    HistoriesAreExact(b, exp);
    assert Exact(Found(FinalArms(a, exp), key, exp), FinalLedger(a), key, exp);
    assert Exact(Found(FinalArms(b, exp), key, exp), FinalLedger(b), key, exp);
    SumOfPermutation(FinalLedger(a), FinalLedger(b), key);
  }

  lemma {:induction false} SumOfPermutation(a: seq<Entry>, b: seq<Entry>, key: Key)
    requires multiset(a) == multiset(b)
    ensures Count(a, key) == Count(b, key) && Sum(a, key, RewardOf) == Sum(b, key, RewardOf)
  {
    if a == [] {
      assert |multiset(b)| == |b|;
    } else {
      var i := FindSame(a, b);
      SumOfPermutation(a[1..], b[..i] + b[i + 1..], key);
      SumOfRemoval(b, i, key);
    }
  }

  /** Where the first entry of one permutation sits in the other, and what is left of both. */
  lemma FindSame(a: seq<Entry>, b: seq<Entry>) returns (i: nat)
    requires a != [] && multiset(a) == multiset(b)
    ensures i < |b| && b[i] == a[0]
    ensures multiset(a[1..]) == multiset(b[..i] + b[i + 1..])
  {
    assert a[0] in multiset(b);
    i :| 0 <= i < |b| && b[i] == a[0];
    assert b == b[..i] + [b[i]] + b[i + 1..];
    assert a == [a[0]] + a[1..];
    assert multiset(b[..i] + b[i + 1..]) == multiset(b) - multiset{b[i]};
  }

  lemma {:induction false} SumOfRemoval(b: seq<Entry>, i: nat, key: Key)
    requires i < |b|
    ensures var rest := b[..i] + b[i + 1..];
            && Count(b, key) == Count(rest, key) + (if b[i].key == key then 1 else 0)
            && Sum(b, key, RewardOf) == Sum(rest, key, RewardOf) + (if b[i].key == key then b[i].reward else 0.0)
  {
    var rest := b[..i] + b[i + 1..];
    if i == 0 {
      assert rest == b[1..];
    } else {
      SumOfRemoval(b[1..], i - 1, key);
      assert rest[0] == b[0];
      assert rest[1..] == b[1..][..i - 1] + b[1..][i..];
    }
  }

  // ----- what the kernel feeds the learner

  /** Everything that writes to the learner's rows. `learn` after a run and `rateRun`
      when it is rated store the reward on the run's row, and pass it on only if the
      workspace learns its policy; an operator resets rows and leaves the runs'
      rewards; and choosing a policy opens the rows of the arms on offer. */
  datatype Feedback =
    | Learn(run: string, key: Key, learns: bool, reward: real, cost: real, duration: real)
    | RateRun(run: string, key: Key, learns: bool, reward: real)
    | Reset(workspace: Option<string>, category: Option<string>)
    | Offer(key: Key)
  {
    predicate About(r: string) {
      (Learn? || RateRun?) && run == r
    }

    /** A report that reaches the learner. */
    predicate Passes() {
      (Learn? || RateRun?) && learns
    }

    predicate Erases(key: Key) {
      Reset? && Under(key, workspace, category)
    }
  }

  /** The reward column of the run rows. */
  function RewardsAfter(rewards: map<string, real>, f: Feedback): map<string, real> {
    if f.Learn? || f.RateRun? then rewards[f.run := f.reward] else rewards
  }

  function LearnedAfter(arms: Arms, rewards: map<string, real>, f: Feedback, exp: real -> real): Arms {
    match f
    case Learn(_, key, learns, reward, cost, duration) =>
      if learns then Updated(arms, key, reward, cost, duration, exp) else arms
    case RateRun(run, key, learns, reward) =>
      if learns then Revised(arms, key, if run in rewards then Some(rewards[run]) else None, reward, exp) else arms
    case Reset(workspace, category) => Dropped(arms, workspace, category)
    case Offer(key) => arms[key := Found(arms, key, exp)]
  }

  function Rewards(fs: seq<Feedback>): map<string, real> {
    if fs == [] then map[] else RewardsAfter(Rewards(fs[..|fs| - 1]), fs[|fs| - 1])
  }

  function Learned(fs: seq<Feedback>, exp: real -> real): Arms {
    if fs == [] then map[]
    else
      var before := fs[..|fs| - 1];
      LearnedAfter(Learned(before, exp), Rewards(before), fs[|fs| - 1], exp)
  }

  /** Whatever the learner is told, and in whatever order, no row falls below its arm's
      prior: its belief stays one that can be drawn from. */
  lemma {:induction false} BeliefsStayAbovePrior(fs: seq<Feedback>, key: Key, exp: real -> real)
    requires DecaysLikeExp(exp)
    ensures AllAbovePrior(Learned(fs, exp), exp)
    ensures var row := Found(Learned(fs, exp), key, exp); row.alpha > 1.0 && row.beta >= 1.0
  {
    hide Prior;
    if fs == [] {
      forall k ensures AbovePrior(Found(map[], k, exp), k, exp) {
        OpeningIsPrior(k, exp);
      }
    } else {
      var before, f := fs[..|fs| - 1], fs[|fs| - 1];
      BeliefsStayAbovePrior(before, key, exp);
      FeedbackStaysAbove(Learned(before, exp), Rewards(before), f, exp);
    }
    PriorIsProper(key.arm, exp);
    assert AbovePrior(Found(Learned(fs, exp), key, exp), key, exp);
  }

  lemma FeedbackStaysAbove(arms: Arms, rewards: map<string, real>, f: Feedback, exp: real -> real)
    requires AllAbovePrior(arms, exp)
    ensures AllAbovePrior(LearnedAfter(arms, rewards, f, exp), exp)
  {
    hide AllAbovePrior;
    match f
    case Learn(_, key, learns, reward, cost, duration) => UpdateStaysAbove(arms, key, reward, cost, duration, exp);
    case RateRun(run, key, learns, reward) =>
      RevisionStaysAbove(arms, key, if run in rewards then Some(rewards[run]) else None, reward, exp);
    case Reset(workspace, category) => ResetStaysAbove(arms, workspace, category, exp);
    case Offer(key) => OpeningStaysAbove(arms, key, exp);
  }

  /** What the learner should have been told. */
  function Told(fs: seq<Feedback>): seq<Event> {
    if fs == [] then []
    else
      var f, told := fs[|fs| - 1], Told(fs[..|fs| - 1]);
      if Heard(f) then told + [EventOf(f)] else told
  }

  /** Only a report of a workspace that does not learn stays unheard. */
  predicate Heard(f: Feedback) {
    f.Passes() || f.Reset? || f.Offer?
  }

  function EventOf(f: Feedback): Event {
    match f
    case Learn(run, key, _, reward, cost, duration) => Observe(run, key, reward, cost, duration)
    case RateRun(run, key, _, reward) => Rate(run, key, reward)
    case Reset(workspace, category) => Forget(workspace, category)
    case Offer(key) => Open(key)
  }

  /** The reward on a run's row, if it has one. */
  function LastStored(fs: seq<Feedback>, run: string): Option<real> {
    if run in Rewards(fs) then Some(Rewards(fs)[run]) else None
  }

  /** The report last passed on to the learner for a run, unless it was reset since. */
  function LastReport(fs: seq<Feedback>, run: string): (f: Option<Feedback>)
    ensures f.Some? ==> f.value.Passes() && f.value.About(run) && f.value in fs
  {
    if fs == [] then None
    else
      var f, earlier := fs[|fs| - 1], LastReport(fs[..|fs| - 1], run);
      if f.Passes() && f.run == run then Some(f)
      else if earlier.Some? && f.Erases(earlier.value.key) then None
      else earlier
  }

  /** The reward last passed on to the learner for a run, unless it was reset since. */
  function LastPassed(fs: seq<Feedback>, run: string): Option<real> {
    var last := LastReport(fs, run);
    if last.Some? then Some(last.value.reward) else None
  }

  /** What the learner should hold: one entry for each run it was told of since its last
      reset, with the reward last passed on for it. */
  function DueAfter(due: seq<Entry>, f: Feedback): seq<Entry> {
    if f.Reset? then Remaining(due, f.workspace, f.category)
    else if !f.Passes() then due
    else
      var i := IndexOf(due, f.run);
      if i == |due| then due + [FirstEntry(f)]
      else if f.Learn? then due[i := due[i].(reward := Clamp01(f.reward), cost := f.cost, duration := f.duration)]
      else due[i := due[i].(reward := Clamp01(f.reward))]
  }

  function FirstEntry(f: Feedback): Entry
    requires f.Learn? || f.RateRun?
  {
    Entry(f.run, f.key, Clamp01(f.reward), if f.Learn? then f.cost else 0.0, if f.Learn? then f.duration else 0.0)
  }

  function Due(fs: seq<Feedback>): seq<Entry> {
    if fs == [] then [] else DueAfter(Due(fs[..|fs| - 1]), fs[|fs| - 1])
  }

  /** Two rewards the learner cannot tell apart, or none on either side. */
  predicate Agree(a: Option<real>, b: Option<real>) {
    a.Some? == b.Some? && (a.Some? ==> Clamp01(a.value) == Clamp01(b.value))
  }

  /** When a report is passed on: a run is learned from once, and a rating finds on the
      run's row the reward that was last passed on and not reset since, or none on
      either side. */
  predicate InStep(before: seq<Feedback>, f: Feedback)
    requires f.Passes()
  {
    if f.Learn? then LastPassed(before, f.run).None?
    else Agree(LastPassed(before, f.run), LastStored(before, f.run))
  }

  ghost predicate AlwaysInStep(fs: seq<Feedback>) {
    forall n: nat :: n < |fs| && fs[n].Passes() ==> InStep(fs[..n], fs[n])
  }

  /** At every moment the stored rows are the priors plus what the learner should hold. */
  ghost predicate AlwaysExact(fs: seq<Feedback>, exp: real -> real) {
    forall n: nat :: n <= |fs| ==> AllExact(Learned(fs[..n], exp), Due(fs[..n]), exp)
  }

  /** The reports on one run name its key. */
  ghost predicate Keyed(fs: seq<Feedback>, run: string, key: Key) {
    forall j :: 0 <= j < |fs| && fs[j].About(run) ==> fs[j].key == key
  }

  /** A run's row names one workspace, one category and one policy for good. */
  ghost predicate OneKeyPerRun(fs: seq<Feedback>) {
    forall i, j :: 0 <= i < j < |fs| && SameRun(fs[i], fs[j]) ==> fs[i].key == fs[j].key
  }

  /** A run is learned from at most once, before any rating; its workspace's setting and
      its policy are the same each time; and nothing it taught is reset before its
      last rating. */
  ghost predicate Steady(fs: seq<Feedback>) {
    && (forall i, j :: 0 <= i < j < |fs| && SameRun(fs[i], fs[j]) ==>
          fs[i].learns == fs[j].learns && fs[i].key == fs[j].key && fs[j].RateRun?)
    && (forall i, j, k :: 0 <= i < j < k < |fs| && SameRun(fs[i], fs[k]) && fs[i].learns ==> !fs[j].Erases(fs[i].key))
  }

  predicate SameRun(f: Feedback, g: Feedback) {
    (f.Learn? || f.RateRun?) && g.About(f.run)
  }

  lemma {:induction false} IndexAfterAppend(ledger: seq<Entry>, e: Entry, run: string)
    ensures IndexOf(ledger + [e], run) ==
            if IndexOf(ledger, run) < |ledger| then IndexOf(ledger, run)
            else if e.run == run then |ledger| else |ledger| + 1
  {
    if ledger == [] {
      assert (ledger + [e])[1..] == [];
    } else {
      assert (ledger + [e])[1..] == ledger[1..] + [e];
      IndexAfterAppend(ledger[1..], e, run);
    }
  }

  lemma {:induction false} IndexAfterChange(ledger: seq<Entry>, k: nat, e: Entry, run: string)
    requires k < |ledger| && e.run == ledger[k].run
    ensures IndexOf(ledger[k := e], run) == IndexOf(ledger, run)
  {
    if k == 0 {
      assert ledger[k := e][1..] == ledger[1..];
    } else {
      assert ledger[k := e][1..] == ledger[1..][k - 1 := e];
      IndexAfterChange(ledger[1..], k - 1, e, run);
    }
  }

  /** What the learner should hold for a run is the reward last passed on. */
  lemma {:induction false} DueIsLastPassed(fs: seq<Feedback>, run: string, key: Key)
    requires Keyed(fs, run, key)
    ensures var i := IndexOf(Due(fs), run);
            && (i < |Due(fs)| <==> LastPassed(fs, run).Some?)
            && (i < |Due(fs)| ==> Due(fs)[i].reward == Clamp01(LastPassed(fs, run).value) && Due(fs)[i].key == key)
    ensures AllKeyed(Due(fs), run, key)
  {
    if fs != [] {
      var before, f := fs[..|fs| - 1], fs[|fs| - 1];
      DueIsLastPassed(before, run, key);
      if f.Reset? {
        IndexAfterForgetting(Due(before), f.workspace, f.category, run, key);
      } else {
        IndexAfterDue(Due(before), f, run, key);
      }
    }
  }

  ghost predicate AllKeyed(ledger: seq<Entry>, run: string, key: Key) {
    forall j :: 0 <= j < |ledger| && ledger[j].run == run ==> ledger[j].key == key
  }

  lemma IndexAfterDue(due: seq<Entry>, f: Feedback, run: string, key: Key)
    requires AllKeyed(due, run, key) && !f.Reset? && (f.About(run) ==> f.key == key)
    ensures var i, after := IndexOf(due, run), DueAfter(due, f);
            var k := IndexOf(after, run);
            && AllKeyed(after, run, key)
            && if f.Passes() && f.run == run
               then k < |after| && after[k].reward == Clamp01(f.reward) && after[k].key == key
               else (k < |after| <==> i < |due|) && (i < |due| ==> after[k] == due[i])
  {
    hide Clamp01;
    if f.Passes() {
      var i := IndexOf(due, f.run);
      if i == |due| {
        IndexAfterAppend(due, FirstEntry(f), run);
      } else {
        IndexAfterChange(due, i, DueAfter(due, f)[i], run);
      }
    }
  }

  lemma {:induction false} IndexAfterForgetting(ledger: seq<Entry>, workspace: Option<string>, category: Option<string>,
                                                run: string, key: Key)
    requires AllKeyed(ledger, run, key)
    ensures var i, rest := IndexOf(ledger, run), Remaining(ledger, workspace, category);
            var k := IndexOf(rest, run);
            && AllKeyed(rest, run, key)
            && (k < |rest| <==> i < |ledger| && !Under(key, workspace, category))
            && (k < |rest| ==> rest[k] == ledger[i])
  {
    hide Under;
    hide AllKeyed;
    hide Remaining;
    hide IndexOf;
    if ledger == [] {
      NothingRemains(workspace, category, run, key);
    } else {
      var first, tail := ledger[0], ledger[1..];
      var rest := Remaining(tail, workspace, category);
      TailIsKeyed(ledger, run, key);
      IndexAfterForgetting(tail, workspace, category, run, key);
      RemainingStep(ledger, workspace, category);
      FirstIsKeyed(first, rest, run, key);
      FirstIsKeyed(first, tail, run, key);
      assert ledger == [first] + tail;
    }
  }

  lemma NothingRemains(workspace: Option<string>, category: Option<string>, run: string, key: Key)
    ensures Remaining([], workspace, category) == [] && IndexOf([], run) == 0 && AllKeyed([], run, key)
  {
  }

  lemma RemainingStep(ledger: seq<Entry>, workspace: Option<string>, category: Option<string>)
    requires ledger != []
    ensures var rest := Remaining(ledger[1..], workspace, category);
            Remaining(ledger, workspace, category) ==
            if Under(ledger[0].key, workspace, category) then rest else [ledger[0]] + rest
  {
    hide Under;
    var rest := Remaining(ledger[1..], workspace, category);
    assert [] + rest == rest;
  }

  lemma TailIsKeyed(ledger: seq<Entry>, run: string, key: Key)
    requires AllKeyed(ledger, run, key) && ledger != []
    ensures AllKeyed(ledger[1..], run, key) && (ledger[0].run == run ==> ledger[0].key == key)
  {
  }

  lemma FirstIsKeyed(first: Entry, rest: seq<Entry>, run: string, key: Key)
    requires AllKeyed(rest, run, key) && (first.run == run ==> first.key == key)
    ensures AllKeyed([first] + rest, run, key)
    ensures IndexOf([first] + rest, run) == if first.run == run then 0 else 1 + IndexOf(rest, run)
  {
    assert ([first] + rest)[1..] == rest;
  }

  /** When a report keeps the rows exact, said of the rows: a first observation must be
      of a run the learner does not hold, and a correction must name what it holds. */
  predicate Truthful(due: seq<Entry>, rewards: map<string, real>, f: Feedback)
    requires f.Passes()
  {
    var i := IndexOf(due, f.run);
    if f.Learn? then i == |due|
    else if i < |due| then f.run in rewards && Clamp01(rewards[f.run]) == due[i].reward
    else f.run !in rewards
  }

  /** From exact rows, a report leads to exact rows if and only if it is truthful. */
  lemma FeedbackStepIsExact(arms: Arms, due: seq<Entry>, rewards: map<string, real>, f: Feedback, exp: real -> real)
    requires AllExact(arms, due, exp) && f.Passes()
    requires var i := IndexOf(due, f.run); i < |due| ==> due[i].key == f.key
    ensures AllExact(LearnedAfter(arms, rewards, f, exp), DueAfter(due, f), exp) <==> Truthful(due, rewards, f)
  {
    hide Exact;
    hide Prior;
    var i, after := IndexOf(due, f.run), LearnedAfter(arms, rewards, f, exp);
    match f
    case Learn(run, key, _, reward, cost, duration) =>
      if i == |due| {
        UpdateIsExact(arms, due, exp, run, key, reward, cost, duration);
      } else {
        TrialsTell(arms, after, due, DueAfter(due, f), key, exp);
        SumOfChange(due, i, DueAfter(due, f)[i], key, RewardOf);
      }
    case RateRun(run, key, _, reward) =>
      if i < |due| && run in rewards {
        OnlyHonestRevisionsAreExact(arms, due, exp, i, rewards[run], reward);
      } else if i < |due| {
        TrialsTell(arms, after, due, DueAfter(due, f), key, exp);
        SumOfChange(due, i, DueAfter(due, f)[i], key, RewardOf);
      } else if run in rewards {
        TrialsTell(arms, after, due, DueAfter(due, f), key, exp);
        CountOfAppend(due, FirstEntry(f), key);
      } else {
        UpdateIsExact(arms, due, exp, run, key, Clamp01(reward), 0.0, 0.0);
      }
  }

  /** Rows are not exact once their trials and the count of runs moved differently. */
  lemma TrialsTell(arms: Arms, after: Arms, due: seq<Entry>, later: seq<Entry>, key: Key, exp: real -> real)
    requires AllExact(arms, due, exp)
    ensures Found(after, key, exp).trials - Found(arms, key, exp).trials != Count(later, key) - Count(due, key) ==>
              !AllExact(after, later, exp)
  {
    assert Exact(Found(arms, key, exp), due, key, exp);
    if AllExact(after, later, exp) {
      assert Exact(Found(after, key, exp), later, key, exp);
    }
  }

  /** Truthful of the rows is in step of the reports. */
  lemma TruthfulIsInStep(fs: seq<Feedback>, f: Feedback)
    requires f.Passes() && Keyed(fs, f.run, f.key)
    ensures Truthful(Due(fs), Rewards(fs), f) <==> InStep(fs, f)
  {
    DueIsLastPassed(fs, f.run, f.key);
  }

  /** What is no report keeps the rows exact, and so does one that is not passed on. */
  lemma OthersKeepExact(arms: Arms, due: seq<Entry>, rewards: map<string, real>, f: Feedback, exp: real -> real)
    requires AllExact(arms, due, exp) && !f.Passes()
    ensures AllExact(LearnedAfter(arms, rewards, f, exp), DueAfter(due, f), exp)
  {
    hide AllExact;
    match f
    case Reset(workspace, category) => ForgettingIsExact(arms, due, exp, workspace, category);
    case Offer(key) => OpeningIsExact(arms, due, exp, key);
    case _ =>
  }

  lemma LastStep(fs: seq<Feedback>, exp: real -> real)
    requires fs != []
    ensures var before := fs[..|fs| - 1];
            && (AlwaysExact(fs, exp) <==> AlwaysExact(before, exp) && AllExact(Learned(fs, exp), Due(fs), exp))
            && (AlwaysInStep(fs) <==> AlwaysInStep(before) && (fs[|fs| - 1].Passes() ==> InStep(before, fs[|fs| - 1])))
  {
    hide AllExact;
    hide Learned;
    hide Due;
    hide InStep;
    var before := fs[..|fs| - 1];
    assert fs[..|fs|] == fs;
    forall n: nat | n <= |before| ensures before[..n] == fs[..n] {
    }
  }

  /** However runs are reported and rated, the setting switched and the learner reset:
      every row is exact at every moment if and only if each report that is passed on
      is in step with what was passed on before and not reset since. */
  lemma {:induction false} FeedbackIsExact(fs: seq<Feedback>, exp: real -> real)
    requires OneKeyPerRun(fs)
    ensures AlwaysExact(fs, exp) <==> AlwaysInStep(fs)
  {
    hide AllExact;
    if fs == [] {
      NothingIsExact(exp);
      assert fs[..0] == [];
    } else {
      hide AlwaysExact;
      hide AlwaysInStep;
      var before, f := fs[..|fs| - 1], fs[|fs| - 1];
      FeedbackIsExact(before, exp);
      LastStep(fs, exp);
      if AlwaysExact(before, exp) {
        ExactInTheEnd(before, exp);
        if f.Passes() {
          DueIsLastPassed(before, f.run, f.key);
          FeedbackStepIsExact(Learned(before, exp), Due(before), Rewards(before), f, exp);
          TruthfulIsInStep(before, f);
        } else {
          OthersKeepExact(Learned(before, exp), Due(before), Rewards(before), f, exp);
        }
      }
    }
  }

  lemma ExactInTheEnd(fs: seq<Feedback>, exp: real -> real)
    requires AlwaysExact(fs, exp)
    ensures AllExact(Learned(fs, exp), Due(fs), exp)
  {
    assert fs[..|fs|] == fs;
  }

  lemma ToldStep(before: seq<Feedback>, f: Feedback, exp: real -> real)
    ensures var told, after := Told(before), Told(before + [f]);
            && FinalLedger(after) == (if Heard(f) then LedgerAfter(FinalLedger(told), EventOf(f)) else FinalLedger(told))
            && FinalArms(after, exp) ==
               (if Heard(f) then ArmsAfter(FinalArms(told, exp), FinalLedger(told), EventOf(f), exp)
                else FinalArms(told, exp))
  {
    hide LedgerAfter;
    hide ArmsAfter;
    hide EventOf;
    var fs, told := before + [f], Told(before);
    assert fs[..|fs| - 1] == before && fs[|fs| - 1] == f;
    if Heard(f) {
      assert (told + [EventOf(f)])[..|told|] == told;
    }
  }

  /** Reports in step are the events the learner should see, each at its time. */
  lemma {:induction false} InStepFollowsTold(fs: seq<Feedback>, exp: real -> real)
    requires OneKeyPerRun(fs) && AlwaysInStep(fs)
    ensures Due(fs) == FinalLedger(Told(fs)) && Learned(fs, exp) == FinalArms(Told(fs), exp)
  {
    hide Updated;
    hide DueAfter;
    hide LearnedAfter;
    hide LedgerAfter;
    hide ArmsAfter;
    hide Truthful;
    if fs != [] {
      var before, f := fs[..|fs| - 1], fs[|fs| - 1];
      assert before + [f] == fs;
      KeysBefore(fs);
      LastStep(fs, exp);
      hide OneKeyPerRun;
      hide AlwaysInStep;
      InStepFollowsTold(before, exp);
      ToldStep(before, f, exp);
      hide Told;
      hide FinalArms;
      hide FinalLedger;
      if !f.Passes() {
        OtherStep(Learned(before, exp), Due(before), Rewards(before), f, exp);
      } else {
        DueIsLastPassed(before, f.run, f.key);
        TruthfulIsInStep(before, f);
        TruthfulFollows(Learned(before, exp), Due(before), Rewards(before), f, exp);
      }
    }
  }

  lemma KeysBefore(fs: seq<Feedback>)
    requires OneKeyPerRun(fs) && fs != []
    ensures var before, f := fs[..|fs| - 1], fs[|fs| - 1];
            OneKeyPerRun(before) && (f.Passes() ==> Keyed(before, f.run, f.key))
  {
  }

  lemma OtherStep(arms: Arms, due: seq<Entry>, rewards: map<string, real>, f: Feedback, exp: real -> real)
    requires !f.Passes()
    ensures LearnedAfter(arms, rewards, f, exp) == (if Heard(f) then ArmsAfter(arms, due, EventOf(f), exp) else arms)
    ensures DueAfter(due, f) == (if Heard(f) then LedgerAfter(due, EventOf(f)) else due)
  {
  }

  lemma TruthfulFollows(arms: Arms, due: seq<Entry>, rewards: map<string, real>, f: Feedback, exp: real -> real)
    requires f.Passes() && Truthful(due, rewards, f)
    requires var i := IndexOf(due, f.run); i < |due| ==> due[i].key == f.key && 0.0 <= due[i].reward <= 1.0
    ensures LearnedAfter(arms, rewards, f, exp) == ArmsAfter(arms, due, EventOf(f), exp)
    ensures DueAfter(due, f) == LedgerAfter(due, EventOf(f))
  {
    hide Updated;
    hide Revised;
    hide Clamp01;
    var i := IndexOf(due, f.run);
    hide IndexOf;
    if f.RateRun? && i < |due| {
      ClampOnce(due[i].reward);
      RevisedSees(arms, f.key, rewards[f.run], due[i].reward, f.reward, exp);
    }
  }

  lemma ClampOnce(x: real)
    requires 0.0 <= x <= 1.0
    ensures Clamp01(x) == x
  {
  }

  /** A revision sees no more of the previous reward than its clamped value. */
  lemma RevisedSees(arms: Arms, key: Key, a: real, b: real, reward: real, exp: real -> real)
    requires Clamp01(a) == Clamp01(b)
    ensures Revised(arms, key, Some(a), reward, exp) == Revised(arms, key, Some(b), reward, exp)
  {
    hide Corrected;
  }

  /** A run all of whose reports are passed on has on its row what was last passed on,
      as long as that is not reset. */
  lemma {:induction false} PassedIsStored(fs: seq<Feedback>, run: string)
    requires forall j :: 0 <= j < |fs| && fs[j].About(run) ==> fs[j].learns
    ensures LastPassed(fs, run).Some? ==> LastPassed(fs, run) == LastStored(fs, run)
  {
    if fs != [] {
      PassedIsStored(fs[..|fs| - 1], run);
    }
  }

  /** And it is not, without a reset after one of its reports. */
  lemma {:induction false} StoredIsPassed(fs: seq<Feedback>, run: string)
    requires forall j :: 0 <= j < |fs| && fs[j].About(run) ==> fs[j].learns
    requires forall i, j :: 0 <= i < j < |fs| && fs[i].About(run) ==> !fs[j].Erases(fs[i].key)
    ensures LastStored(fs, run).Some? ==> LastPassed(fs, run).Some?
  {
    if fs != [] {
      var before, f := fs[..|fs| - 1], fs[|fs| - 1];
      StoredIsPassed(before, run);
      var earlier := LastReport(before, run);
      if earlier.Some? {
        var i :| 0 <= i < |before| && before[i] == earlier.value;
        assert fs[i].About(run);
        assert !f.Erases(earlier.value.key);
      }
    }
  }

  /** What is never passed on is never held. */
  lemma {:induction false} NothingPassed(fs: seq<Feedback>, run: string)
    requires forall j :: 0 <= j < |fs| && fs[j].About(run) ==> !fs[j].learns
    ensures LastPassed(fs, run).None?
  {
    if fs != [] {
      NothingPassed(fs[..|fs| - 1], run);
    }
  }

  lemma SteadyIsInStep(fs: seq<Feedback>)
    requires Steady(fs)
    ensures OneKeyPerRun(fs) && AlwaysInStep(fs)
  {
    forall n: nat | n < |fs| && fs[n].Passes() ensures InStep(fs[..n], fs[n]) {
      SteadyStep(fs, n);
    }
  }

  lemma SteadyStep(fs: seq<Feedback>, n: nat)
    requires Steady(fs) && n < |fs| && fs[n].Passes()
    ensures InStep(fs[..n], fs[n])
  {
    var before, f := fs[..n], fs[n];
    forall j | 0 <= j < |before| && before[j].About(f.run) ensures before[j].learns && f.RateRun? {
      assert SameRun(fs[j], fs[n]);
    }
    if f.Learn? {
      NothingPassed(before, f.run);
    } else {
      forall i, j | 0 <= i < j < |before| && before[i].About(f.run) ensures !before[j].Erases(before[i].key) {
        assert SameRun(fs[i], fs[n]) && fs[i].learns;
      }
      PassedIsStored(before, f.run);
      StoredIsPassed(before, f.run);
    }
  }

  /** With steady settings the kernel tells the learner exactly what it should,
      so the stored rows are at every moment the prior plus the rewards in force. */
  lemma SteadyFeedbackIsExact(fs: seq<Feedback>, exp: real -> real)
    requires Steady(fs)
    ensures AlwaysExact(fs, exp)
    ensures Learned(fs, exp) == FinalArms(Told(fs), exp)
    ensures AllExact(Learned(fs, exp), FinalLedger(Told(fs)), exp)
    ensures forall run :: var ledger := FinalLedger(Told(fs));
              var i := IndexOf(ledger, run);
              i < |ledger| ==> run in Rewards(fs) && Clamp01(Rewards(fs)[run]) == ledger[i].reward
  {
    SteadyIsInStep(fs);
    FeedbackIsExact(fs, exp);
    InStepFollowsTold(fs, exp);
    ExactInTheEnd(fs, exp);
    forall run ensures var i := IndexOf(Due(fs), run);
                       i < |Due(fs)| ==> run in Rewards(fs) && Clamp01(Rewards(fs)[run]) == Due(fs)[i].reward
    {
      SteadyRunsAgree(fs, run);
    }
  }

  lemma SteadyRunsAgree(fs: seq<Feedback>, run: string)
    requires Steady(fs)
    ensures var i := IndexOf(Due(fs), run);
            i < |Due(fs)| ==> run in Rewards(fs) && Clamp01(Rewards(fs)[run]) == Due(fs)[i].reward
  {
    if exists j :: 0 <= j < |fs| && fs[j].About(run) {
      var j :| 0 <= j < |fs| && fs[j].About(run);
      forall k | 0 <= k < |fs| && fs[k].About(run) ensures fs[k].key == fs[j].key && fs[k].learns == fs[j].learns {
        assert k < j ==> SameRun(fs[k], fs[j]);
        assert j < k ==> SameRun(fs[j], fs[k]);
      }
      DueIsLastPassed(fs, run, fs[j].key);
      if fs[j].learns {
        PassedIsStored(fs, run);
      } else {
        NothingPassed(fs, run);
      }
    } else {
      NothingPassed(fs, run);
      var key: Key := Key(None, "", Arm(Haiku, None));
      DueIsLastPassed(fs, run, key);
    }
  }

  /** The setting switched off for one rating and on for the next: exact if and only if
      the rating that was kept from the learner changed nothing. */
  lemma SwitchingBackSkews(run: string, key: Key, x: real, y: real, z: real, cost: real, duration: real, exp: real -> real)
    ensures var fs := [Learn(run, key, true, x, cost, duration), RateRun(run, key, false, y), RateRun(run, key, true, z)];
            AllExact(Learned(fs, exp), Due(fs), exp) <==> Clamp01(x) == Clamp01(y)
  {
    var a, b, c := Learn(run, key, true, x, cost, duration), RateRun(run, key, false, y), RateRun(run, key, true, z);
    var fs := [a, b, c];
    assert fs[..2] == [a, b] && [a, b][..1] == [a] && [a][..0] == [];
    SteadyFeedbackIsExact([a], exp);
    ExactInTheEnd([a], exp);
    assert Due([a, b]) == Due([a]) == [Entry(run, key, Clamp01(x), cost, duration)];
    assert Learned([a, b], exp) == Learned([a], exp);
    assert Rewards([a, b]) == map[run := x][run := y];
    FeedbackStepIsExact(Learned([a, b], exp), Due([a, b]), Rewards([a, b]), c, exp);
  }

  /** When the setting is switched on between a run and its rating, the row is
      revised for a reward it never held, and no ledger explains it. */
  lemma SwitchingOnSkews(run: string, key: Key, x: real, y: real, exp: real -> real, ledger: seq<Entry>)
    requires 0.0 <= x <= 1.0 && 0.0 <= y <= 1.0 && x != y
    ensures var fs := [Learn(run, key, false, x, 0.0, 0.0), RateRun(run, key, true, y)];
            && key in Learned(fs, exp) && Learned(fs, exp)[key].trials == 0
            && !Exact(Learned(fs, exp)[key], ledger, key, exp)
  {
    var first, fs := [Learn(run, key, false, x, 0.0, 0.0)], [Learn(run, key, false, x, 0.0, 0.0), RateRun(run, key, true, y)];
    assert fs[..1] == first && first[..0] == [];
    assert Rewards(first) == map[run := x];
    assert Learned(first, exp) == map[];
    assert Learned(fs, exp) == Revised(map[], key, Some(x), y, exp);
    EmptyCountHasEmptySum(ledger, key);
  }

  /** A reset between a run and its rating, the setting on all along: the rating is
      folded into a row that holds nothing of the run. The row counts no trial and no
      ledger explains it; and a better rating leaves it worth more than its six, because
      the floor of the correction holds back what it should take away. */
  lemma ResettingSkews(run: string, key: Key, category: Option<string>, x: real, y: real, cost: real, duration: real,
                       exp: real -> real, ledger: seq<Entry>)
    requires 0.0 <= x <= 1.0 && 0.0 <= y <= 1.0 && x != y && Under(key, key.workspace, category)
    requires DecaysLikeExp(exp)
    ensures var fs := [Learn(run, key, true, x, cost, duration), Reset(key.workspace, category), RateRun(run, key, true, y)];
            && OneKeyPerRun(fs) && !AlwaysInStep(fs)
            && key in Learned(fs, exp)
            && var row := Learned(fs, exp)[key];
               && row.trials == 0 && row.totalReward == y - x && !Exact(row, ledger, key, exp)
               && (x < y ==> row.alpha + row.beta == 6.0 + (y - x))
  {
    var a, b, c := Learn(run, key, true, x, cost, duration), Reset(key.workspace, category), RateRun(run, key, true, y);
    var fs := [a, b, c];
    assert fs[..2] == [a, b] && [a, b][..1] == [a] && [a][..0] == [];
    assert Learned([], exp) == map[] && Rewards([]) == map[];
    assert Rewards([a]) == map[run := x] && Rewards([a, b]) == Rewards([a]);
    assert Learned([a], exp) == Updated(map[], key, x, cost, duration, exp);
    assert Learned([a], exp).Keys == {key};
    assert Learned([a, b], exp) == Dropped(Learned([a], exp), key.workspace, category) == map[];
    assert Learned(fs, exp) == Revised(map[], key, Some(x), y, exp);
    assert LastReport([a], run) == Some(a) && LastReport([a, b], run) == None;
    assert fs[2].Passes() && !InStep(fs[..2], fs[2]);
    PriorIsProper(key.arm, exp);
    EmptyCountHasEmptySum(ledger, key);
  }

  lemma {:induction false} EmptyCountHasEmptySum(ledger: seq<Entry>, key: Key)
    ensures Count(ledger, key) == 0 ==> Sum(ledger, key, RewardOf) == 0.0
  {
    if ledger != [] {
      EmptyCountHasEmptySum(ledger[1..], key);
    }
  }

  // ----- the learner

  class Learner {
    var arms: map<Key, Row>
    const exp: real -> real

    constructor (exp: real -> real)
      ensures arms == map[] && this.exp == exp
    {
      arms := map[];
      this.exp := exp;
    }

    method FindOrCreate(key: Key) returns (row: Row)
      modifies this
      ensures row == Found(old(arms), key, exp) && arms == old(arms)[key := row]
    {
      if key in arms {
        row := arms[key];
        assert arms == arms[key := row];
        return;
      }
      var (alpha, beta) := Prior(key.arm, exp);
      row := Row(alpha, beta, 0, 0.0, 0.0, 0.0);
      arms := arms[key := row];
    }

    method Update(key: Key, reward: real, costUsd: real, durationMs: real)
      modifies this
      ensures arms == Updated(old(arms), key, reward, costUsd, durationMs, exp)
    {
      var clamped := Clamp01(reward);
      var row := FindOrCreate(key);
      var trials := row.trials + 1;
      arms := arms[key := Row(
        row.alpha + clamped, row.beta + (1.0 - clamped), trials, row.totalReward + clamped,
        row.meanCost + (costUsd - row.meanCost) / trials as real,
        row.meanDuration + (durationMs - row.meanDuration) / trials as real)];
    }

    method Revise(key: Key, previousReward: Option<real>, reward: real)
      modifies this
      ensures arms == Revised(old(arms), key, previousReward, reward, exp)
    {
      var clamped := Clamp01(reward);
      if previousReward.None? {
        Update(key, clamped, 0.0, 0.0);
        return;
      }
      var previous := Clamp01(previousReward.value);
      if previous == clamped {
        return;
      }
      var row := FindOrCreate(key);
      var (alpha, beta) := Prior(key.arm, exp);
      arms := arms[key := row.(
        alpha := AtLeast(alpha, row.alpha - previous + clamped),
        beta := AtLeast(beta, row.beta - (1.0 - previous) + (1.0 - clamped)),
        totalReward := row.totalReward - previous + clamped)];
    }

    /** The rows of a workspace, or of one of its categories, are deleted; how many. */
    method Reset(workspace: Option<string>, category: Option<string>) returns (changes: nat)
      modifies this
      ensures arms == Dropped(old(arms), workspace, category) && changes == |old(arms)| - |arms|
    {
      hide Dropped;
      DroppedIsFewer(arms, workspace, category);
      changes := |arms| - |Dropped(arms, workspace, category)|;
      arms := Dropped(arms, workspace, category);
    }
  }
}
