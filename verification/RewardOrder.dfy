/** What the reward of apps/api/src/learning/bandit.ts rewards, told as orders and
    differences of rewards, and where each arm opens in consequence. */
module RewardOrder {
  import opened Options
  import opened PolicyLearner

  /** `Math.exp` as far as it orders costs: growing, and one at nought. */
  ghost predicate GrowsLikeExp(exp: real -> real) {
    DecaysLikeExp(exp) && exp(0.0) == 1.0 && forall x, y :: x < y <= 0.0 ==> exp(x) < exp(y)
  }

  ghost predicate Priced(o: Outcome) {
    o.costUsd >= 0.0 && o.durationMs >= 0.0
  }

  function Rated(o: Outcome, rating: real): Outcome {
    o.(rating := Some(rating))
  }

  function Unrated(o: Outcome, status: Status, hitLimit: bool, toolErrors: nat): Outcome {
    o.(rating := None, status := status, hitLimit := hitLimit, toolErrors := toolErrors)
  }

  // ----- quality

  /** Every step up in the rating pays, in proportion; from worst to best it is 0.72. */
  lemma RatingsPay(o: Outcome, a: real, b: real, exp: real -> real)
    requires DecaysLikeExp(exp) && Priced(o) && -1.0 <= a <= 1.0 && -1.0 <= b <= 1.0
    ensures Reward(Rated(o, b), exp) - Reward(Rated(o, a), exp) == 0.36 * (b - a)
    ensures a < b ==> Reward(Rated(o, a), exp) < Reward(Rated(o, b), exp)
    ensures Reward(Rated(o, 1.0), exp) - Reward(Rated(o, -1.0), exp) == 0.72
  {
    RewardIsUnclamped(Rated(o, a), exp);
    RewardIsUnclamped(Rated(o, b), exp);
    RewardIsUnclamped(Rated(o, 1.0), exp);
    RewardIsUnclamped(Rated(o, -1.0), exp);
    hide Reward;
  }

  /** An unrated run scores as a rating would have it: a failed one as -0.9, an
      interrupted one as -0.2, and a success that hit no limit and no error as 0.6. */
  lemma UnratedScores(o: Outcome, hitLimit: bool, toolErrors: nat, exp: real -> real)
    requires DecaysLikeExp(exp) && Priced(o)
    ensures Reward(Unrated(o, Failed, hitLimit, toolErrors), exp) == Reward(Rated(o, -0.9), exp)
    ensures Reward(Unrated(o, Interrupted, hitLimit, toolErrors), exp) == Reward(Rated(o, -0.2), exp)
    ensures Reward(Unrated(o, Succeeded, false, 0), exp) == Reward(Rated(o, 0.6), exp)
  {
    assert Quality(Unrated(o, Failed, hitLimit, toolErrors)) == Quality(Rated(o, -0.9));
    assert Quality(Unrated(o, Interrupted, hitLimit, toolErrors)) == Quality(Rated(o, -0.2));
    assert Quality(Unrated(o, Succeeded, false, 0)) == Quality(Rated(o, 0.6));
    hide Quality;
  }

  /** So a failed run scores below an interrupted one, and that below any success that
      hit no limit. */
  lemma StatusesAreOrdered(o: Outcome, hitLimit: bool, toolErrors: nat, errors: nat, exp: real -> real)
    requires DecaysLikeExp(exp) && Priced(o)
    ensures Reward(Unrated(o, Failed, hitLimit, toolErrors), exp) < Reward(Unrated(o, Interrupted, hitLimit, toolErrors), exp)
    ensures Reward(Unrated(o, Interrupted, hitLimit, toolErrors), exp) < Reward(Unrated(o, Succeeded, false, errors), exp)
  {
    RewardIsUnclamped(Unrated(o, Failed, hitLimit, toolErrors), exp);
    RewardIsUnclamped(Unrated(o, Interrupted, hitLimit, toolErrors), exp);
    RewardIsUnclamped(Unrated(o, Succeeded, false, errors), exp);
    hide Reward;
  }

  /** A limit takes 0.18 from a success, and each of the first five tool errors 0.0288;
      later ones take nothing more. */
  lemma SuccessesLose(o: Outcome, hitLimit: bool, errors: nat, exp: real -> real)
    requires DecaysLikeExp(exp) && Priced(o)
    ensures Reward(Unrated(o, Succeeded, false, errors), exp) - Reward(Unrated(o, Succeeded, true, errors), exp) == 0.18
    ensures Reward(Unrated(o, Succeeded, hitLimit, errors), exp) - Reward(Unrated(o, Succeeded, hitLimit, errors + 1), exp)
            == if errors < 5 then 0.0288 else 0.0
  {
    RewardIsUnclamped(Unrated(o, Succeeded, false, errors), exp);
    RewardIsUnclamped(Unrated(o, Succeeded, true, errors), exp);
    RewardIsUnclamped(Unrated(o, Succeeded, hitLimit, errors), exp);
    RewardIsUnclamped(Unrated(o, Succeeded, hitLimit, errors + 1), exp);
    hide Reward;
  }

  // ----- cost and time

  /** What money and time can make of a reward: less than 0.28 together. */
  lemma QualityDecides(o: Outcome, p: Outcome, hitLimit: bool, toolErrors: nat, exp: real -> real)
    requires DecaysLikeExp(exp) && Priced(o) && Priced(p)
    ensures Reward(Unrated(o, Interrupted, hitLimit, toolErrors), exp) < Reward(Unrated(p, Succeeded, false, 0), exp)
    ensures Reward(Unrated(o, Failed, hitLimit, toolErrors), exp) < Reward(Unrated(p, Succeeded, false, 0), exp)
  {
    StatusesAreOrdered(o, hitLimit, toolErrors, 0, exp);
    CostAndTimeInUnit(o, exp);
    CostAndTimeInUnit(p, exp);
    RewardIsUnclamped(Unrated(o, Interrupted, hitLimit, toolErrors), exp);
    RewardIsUnclamped(Unrated(p, Succeeded, false, 0), exp);
    hide Reward;
  }

  lemma CostAndTimeInUnit(o: Outcome, exp: real -> real)
    requires DecaysLikeExp(exp) && Priced(o)
    ensures 0.0 < exp(-o.costUsd / 0.35) <= 1.0
    ensures 0.0 < 1.0 / (1.0 + o.durationMs / 120_000.0) <= 1.0
  {
    LatencyInUnit(o.durationMs);
    assert -o.costUsd / 0.35 <= 0.0;
  }

  /** A free and instant run rated best has the whole reward, and one rated worst 0.28. */
  lemma NothingSpent(o: Outcome, exp: real -> real)
    requires GrowsLikeExp(exp) && o.costUsd == 0.0 && o.durationMs == 0.0
    ensures Reward(Rated(o, 1.0), exp) == 1.0 && Reward(Rated(o, -1.0), exp) == 0.28
  {
    assert -o.costUsd / 0.35 == 0.0;
    assert 1.0 / (1.0 + o.durationMs / 120_000.0) == 1.0;
    RewardIsUnclamped(Rated(o, 1.0), exp);
    RewardIsUnclamped(Rated(o, -1.0), exp);
    hide Reward;
  }

  /** Two minutes cost half of what time can cost. */
  lemma TwoMinutesAreHalf(o: Outcome, exp: real -> real)
    requires DecaysLikeExp(exp) && Priced(o)
    ensures Reward(o.(durationMs := 0.0), exp) - Reward(o.(durationMs := 120_000.0), exp) == 0.06
  {
    RewardIsUnclamped(o.(durationMs := 0.0), exp);
    RewardIsUnclamped(o.(durationMs := 120_000.0), exp);
    hide Reward;
    assert 1.0 / (1.0 + 0.0 / 120_000.0) == 1.0;
    assert 1.0 / (1.0 + 120_000.0 / 120_000.0) == 0.5;
  }

  lemma FasterIsMore(a: real, b: real)
    requires 0.0 <= a < b
    ensures 1.0 / (1.0 + b / 120_000.0) < 1.0 / (1.0 + a / 120_000.0)
  {
    var x, y := 1.0 + a / 120_000.0, 1.0 + b / 120_000.0;
    Reciprocal(x);
    Reciprocal(y);
    Inverses(1.0 / x, 1.0 / y, x, y);
  }

  lemma Inverses(p: real, q: real, x: real, y: real)
    requires p > 0.0 && q > 0.0 && x < y && p * x == 1.0 && q * y == 1.0
    ensures q < p
  {
    Grows(q, 0.0, p);
    Grows(p * q, x, y);
    assert p * q * x == q * (p * x) && p * q * y == p * (q * y);
  }

  /** Of two runs of the same quality the one that is cheaper or faster, and neither dearer
      nor slower, scores higher. */
  lemma ThriftPays(o: Outcome, p: Outcome, exp: real -> real)
    requires GrowsLikeExp(exp) && Priced(o) && Priced(p)
    requires p == o.(costUsd := p.costUsd, durationMs := p.durationMs)
    requires o.costUsd <= p.costUsd && o.durationMs <= p.durationMs && o != p
    ensures Reward(p, exp) < Reward(o, exp)
  {
    RewardIsUnclamped(o, exp);
    RewardIsUnclamped(p, exp);
    hide Reward;
    assert Quality(o) == Quality(p);
    hide Quality;
    if o.durationMs < p.durationMs {
      FasterIsMore(o.durationMs, p.durationMs);
    }
    if o.costUsd < p.costUsd {
      assert -p.costUsd / 0.35 < -o.costUsd / 0.35 <= 0.0;
    }
  }

  // ----- where an arm opens

  /** The arm's opening belief leans higher. */
  ghost predicate OpensHigher(a: Arm, b: Arm, exp: real -> real) {
    Prior(a, exp).0 > Prior(b, exp).0 && Prior(a, exp).1 < Prior(b, exp).1
  }

  lemma RoundsWhole(n: int)
    ensures Round(n as real) == n as real
  {
    var f := (n as real + 0.5).Floor;
    assert f as real <= n as real + 0.5 < f as real + 1.0;
    assert (f - n) as real == f as real - n as real;
  }

  /** What the prior prices an arm of the frontier at: dollars and milliseconds. */
  lemma OpeningPrices()
    ensures Prices(Arm(Haiku, None), 0.058, 25_000.0)
    ensures Prices(Arm(Sonnet, Some(Low)), 0.1032, 27_000.0)
    ensures Prices(Arm(Sonnet, Some(Medium)), 0.116, 45_000.0)
    ensures Prices(Arm(Sonnet, Some(High)), 0.1352, 72_000.0)
    ensures Prices(Arm(Opus, Some(Medium)), 0.29, 60_000.0)
    ensures Prices(Arm(Opus, Some(High)), 0.338, 96_000.0)
    ensures Prices(Arm(Fable, Some(High)), 0.676, 120_000.0)
    ensures Prices(Arm(Fable, Some(XHigh)), 0.804, 180_000.0)
  {
    hide Prices;
    PriceOf(Arm(Haiku, None), Medium, 25_000, 0.058);
    PriceOf(Arm(Sonnet, Some(Low)), Low, 27_000, 0.1032);
    PriceOf(Arm(Sonnet, Some(Medium)), Medium, 45_000, 0.116);
    PriceOf(Arm(Sonnet, Some(High)), High, 72_000, 0.1352);
    PriceOf(Arm(Opus, Some(Medium)), Medium, 60_000, 0.29);
    PriceOf(Arm(Opus, Some(High)), High, 96_000, 0.338);
    PriceOf(Arm(Fable, Some(High)), High, 120_000, 0.676);
    PriceOf(Arm(Fable, Some(XHigh)), XHigh, 180_000, 0.804);
  }

  /** An arm at the effort it amounts to. */
  lemma PriceOf(arm: Arm, effort: Effort, durationMs: int, costUsd: real)
    requires arm.effort == Some(effort) || (arm == Arm(Haiku, None) && effort == Medium)
    requires durationMs as real == ProfileOf(arm.model).durationMs * FactorOf(Some(effort)).1
    requires costUsd == 0.042 * ProfileOf(arm.model).inPrice + 0.0032 * FactorOf(Some(effort)).0 * ProfileOf(arm.model).outPrice
    ensures Prices(arm, costUsd, durationMs as real)
  {
    hide Round;
    RoundsWhole(durationMs);
  }

  predicate Prices(arm: Arm, costUsd: real, durationMs: real) {
    TypicalRun(arm) == Outcome(Succeeded, None, false, 0, costUsd, durationMs)
  }

  lemma CheaperOpensHigher(a: Arm, b: Arm, exp: real -> real)
    requires GrowsLikeExp(exp)
    requires var o, p := TypicalRun(a), TypicalRun(b);
             o.costUsd <= p.costUsd && o.durationMs <= p.durationMs && o != p
    ensures OpensHigher(a, b, exp)
  {
    var o, p := TypicalRun(a), TypicalRun(b);
    TypicalRunsSucceed(a);
    TypicalRunsSucceed(b);
    hide TypicalRun;
    ThriftPays(o, p, exp);
    hide Reward;
  }

  lemma TypicalRunsSucceed(arm: Arm)
    ensures var o := TypicalRun(arm);
            o == Outcome(Succeeded, None, false, 0, o.costUsd, o.durationMs)
  {
  }

  /** At every effort level the cheaper model opens higher. */
  lemma ModelsAreOrdered(effort: Effort, exp: real -> real)
    requires GrowsLikeExp(exp)
    ensures OpensHigher(Arm(Haiku, Some(effort)), Arm(Sonnet, Some(effort)), exp)
    ensures OpensHigher(Arm(Sonnet, Some(effort)), Arm(Opus, Some(effort)), exp)
    ensures OpensHigher(Arm(Opus, Some(effort)), Arm(Fable, Some(effort)), exp)
  {
    hide OpensHigher;
    CheaperModel(Haiku, Sonnet, effort, exp);
    CheaperModel(Sonnet, Opus, effort, exp);
    CheaperModel(Opus, Fable, effort, exp);
  }

  lemma RunTimes(model: Model, effort: Effort) returns (durationMs: int)
    ensures durationMs as real == ProfileOf(model).durationMs * FactorOf(Some(effort)).1 > 0.0
  {
    durationMs := (ProfileOf(model).durationMs * FactorOf(Some(effort)).1).Floor;
  }

  lemma CheaperModel(a: Model, b: Model, effort: Effort, exp: real -> real)
    requires GrowsLikeExp(exp)
    requires ProfileOf(a).inPrice < ProfileOf(b).inPrice && ProfileOf(a).outPrice < ProfileOf(b).outPrice
    requires ProfileOf(a).durationMs < ProfileOf(b).durationMs
    ensures OpensHigher(Arm(a, Some(effort)), Arm(b, Some(effort)), exp)
  {
    hide Reward;
    var p, q := ProfileOf(a), ProfileOf(b);
    var output, duration := FactorOf(Some(effort)).0, FactorOf(Some(effort)).1;
    var s := RunTimes(a, effort);
    var t := RunTimes(b, effort);
    assert output > 0.0 && duration > 0.0;
    hide GrowsLikeExp;
    hide ProfileOf;
    hide FactorOf;
    hide TypicalRun;
    hide OpensHigher;
    var c, d := 0.042 * p.inPrice + 0.0032 * output * p.outPrice, 0.042 * q.inPrice + 0.0032 * output * q.outPrice;
    PriceOf(Arm(a, Some(effort)), effort, s, c);
    PriceOf(Arm(b, Some(effort)), effort, t, d);
    PriceGrows(p, q, output, duration);
    CheaperOpensHigher(Arm(a, Some(effort)), Arm(b, Some(effort)), exp);
  }

  lemma PriceGrows(p: Profile, q: Profile, output: real, duration: real)
    requires p.inPrice < q.inPrice && p.outPrice < q.outPrice && p.durationMs < q.durationMs && output > 0.0 && duration > 0.0
    ensures 0.042 * p.inPrice + 0.0032 * output * p.outPrice < 0.042 * q.inPrice + 0.0032 * output * q.outPrice
    ensures p.durationMs * duration < q.durationMs * duration
  {
    Grows(duration, p.durationMs, q.durationMs);
    Grows(0.0032 * output, p.outPrice, q.outPrice);
  }

  lemma Grows(factor: real, x: real, y: real)
    requires factor > 0.0 && x < y
    ensures factor * x < factor * y && x * factor < y * factor
  {
  }

  /** On every model the lower effort opens higher. */
  lemma EffortsAreOrdered(model: Model, exp: real -> real)
    requires GrowsLikeExp(exp)
    ensures OpensHigher(Arm(model, Some(Low)), Arm(model, Some(Medium)), exp)
    ensures OpensHigher(Arm(model, Some(Medium)), Arm(model, Some(High)), exp)
    ensures OpensHigher(Arm(model, Some(High)), Arm(model, Some(XHigh)), exp)
    ensures OpensHigher(Arm(model, Some(XHigh)), Arm(model, Some(Max)), exp)
  {
    hide OpensHigher;
    LowerEffort(model, Low, Medium, exp);
    LowerEffort(model, Medium, High, exp);
    LowerEffort(model, High, XHigh, exp);
    LowerEffort(model, XHigh, Max, exp);
  }

  lemma LowerEffort(model: Model, a: Effort, b: Effort, exp: real -> real)
    requires GrowsLikeExp(exp)
    requires FactorOf(Some(a)).0 < FactorOf(Some(b)).0 && FactorOf(Some(a)).1 < FactorOf(Some(b)).1
    ensures OpensHigher(Arm(model, Some(a)), Arm(model, Some(b)), exp)
  {
    var p := ProfileOf(model);
    var (lessOutput, lessTime) := FactorOf(Some(a));
    var (moreOutput, moreTime) := FactorOf(Some(b));
    var s := RunTimes(model, a);
    var t := RunTimes(model, b);
    assert p.outPrice > 0.0 && p.durationMs > 0.0;
    hide GrowsLikeExp;
    hide ProfileOf;
    hide FactorOf;
    hide TypicalRun;
    hide OpensHigher;
    var c, d := 0.042 * p.inPrice + 0.0032 * lessOutput * p.outPrice, 0.042 * p.inPrice + 0.0032 * moreOutput * p.outPrice;
    PriceOf(Arm(model, Some(a)), a, s, c);
    PriceOf(Arm(model, Some(b)), b, t, d);
    Grows(p.durationMs, lessTime, moreTime);
    Grows(p.outPrice, 0.0032 * lessOutput, 0.0032 * moreOutput);
    CheaperOpensHigher(Arm(model, Some(a)), Arm(model, Some(b)), exp);
  }

  /** A model the table does not name opens as Opus does, and so does Opus with a plan. */
  lemma UnlistedIsOpus(name: string, effort: Option<Effort>, exp: real -> real)
    ensures Prior(Arm(Unlisted(name), effort), exp) == Prior(Arm(Opus, effort), exp) == Prior(Arm(OpusPlan, effort), exp)
  {
    assert TypicalRun(Arm(Unlisted(name), effort)) == TypicalRun(Arm(Opus, effort)) == TypicalRun(Arm(OpusPlan, effort));
    hide TypicalRun;
  }

  /** An effort left open is priced as high, except on Haiku, which has none to set and
      is priced as it is. */
  lemma OpenEffortIsHigh(model: Model, exp: real -> real)
    ensures Prior(Arm(model, None), exp) == Prior(Arm(model, Some(if model.Haiku? then Medium else High)), exp)
  {
    assert TypicalRun(Arm(model, None)) == TypicalRun(Arm(model, Some(if model.Haiku? then Medium else High)));
    hide TypicalRun;
  }
}
