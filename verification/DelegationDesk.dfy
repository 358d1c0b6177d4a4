/** Handing an awaited run's answer to whoever waits for it: `awaitedRuns`,
    `delegationWaiters`, `delegationSettled` and `delegationAbandoned` in
    apps/api/src/kernel/kernel.ts. */
module DelegationDesk {
  import opened SlotQueue

  datatype Stash = Stash(text: string, ready: bool)

  /** The first four are the kernel's collections. The rest is history: the runs
      declared awaited, the outcomes stashed, the runs settled and waited on, the
      waits that timed out, the answers handed over and the stashes thrown away, and
      the runs waited on a second time or without having been declared. `timers` holds the
      clocks that run: one a wait, stopped only for the waiter that is answered. */
  datatype Desk = Desk(
    awaited: set<RunId>,
    waiters: set<RunId>,
    settled: map<RunId, Stash>,
    abandoned: set<RunId>,
    declared: set<RunId>,
    outcomes: map<RunId, string>,
    done: set<RunId>,
    asked: set<RunId>,
    timedOut: set<RunId>,
    answers: map<RunId, seq<string>>,
    discarded: set<RunId>,
    strays: set<RunId>,
    timers: multiset<RunId>)

  const EMPTY_DESK := Desk({}, {}, map[], {}, {}, map[], {}, {}, {}, map[], {}, {}, multiset{})

  function AnswersTo(d: Desk, r: RunId): seq<string> {
    if r in d.answers then d.answers[r] else []
  }

  /** The text a waiter is owed: the stashed one, or empty if the run threw first. */
  function FinalText(d: Desk, r: RunId): string {
    if r in d.outcomes then d.outcomes[r] else ""
  }

  // ----- the steps

  /** `submit` records that its caller will wait. */
  function Declare(d: Desk, r: RunId, willWait: bool): Desk {
    if willWait then d.(awaited := d.awaited + {r}, declared := d.declared + {r}) else d
  }

  /** `runToCompletion` stashes the outcome of an awaited run. */
  function StashOutcome(d: Desk, r: RunId, text: string): Desk {
    if r in d.awaited then d.(settled := d.settled[r := Stash(text, false)], outcomes := d.outcomes[r := text])
    else d
  }

  function Deliver(d: Desk, r: RunId, text: string): Desk {
    d.(settled := d.settled - {r}, answers := d.answers[r := AnswersTo(d, r) + [text]])
  }

  /** `settleDelegation`. */
  function Settle(d: Desk, r: RunId): Desk {
    var over := d.(done := d.done + {r});
    if r !in d.awaited then over
    else
      var out := over.(awaited := d.awaited - {r});
      if r in d.abandoned then
        out.(abandoned := d.abandoned - {r}, settled := d.settled - {r}, discarded := d.discarded + {r})
      else
        var stash := if r in d.settled then d.settled[r].(ready := true) else Stash("", true);
        if r in d.waiters then
          Deliver(out.(waiters := d.waiters - {r}, timers := d.timers - multiset{r}), r, stash.text)
        else out.(settled := d.settled[r := stash])
  }

  /** `waitForDelegation`: consume a ready stash, or register and start the clock. */
  function Wait(d: Desk, r: RunId): Desk {
    var asking := d.(asked := d.asked + {r},
                     strays := if r in d.declared && r !in d.asked then d.strays else d.strays + {r});
    if r in d.settled && d.settled[r].ready then Deliver(asking, r, d.settled[r].text)
    else asking.(waiters := d.waiters + {r}, timers := d.timers + multiset{r})
  }

  /** A wait's clock runs out, its own waiter still there, replaced or answered for another. */
  function Expire(d: Desk, r: RunId): Desk {
    d.(waiters := d.waiters - {r}, abandoned := d.abandoned + {r}, timedOut := d.timedOut + {r},
       timers := d.timers - multiset{r})
  }

  // ----- the invariant

  /** However a run is waited on: it counts as awaited until it settles, and what was
      answered, is ready to be answered or may still be answered is at most one thing. */
  ghost predicate OnceFor(d: Desk, r: RunId) {
    && (r in d.awaited <==> r in d.declared && r !in d.done)
    && (r !in d.declared ==> AnswersTo(d, r) == [] && r !in d.settled)
    && (r in d.settled && d.settled[r].ready ==> r in d.done)
    && |AnswersTo(d, r)| + (if r in d.awaited || (r in d.settled && d.settled[r].ready) then 1 else 0) <= 1
  }

  /** What the desk holds about a run that is waited on at most once, before and after
      it settles. */
  ghost predicate InvFor(d: Desk, r: RunId) {
    && (r in d.awaited <==> r in d.declared && r !in d.done)
    && (r !in d.declared ==> r !in d.waiters && r !in d.settled && r !in d.abandoned && r !in d.asked
                             && r !in d.timedOut && r !in d.answers && r !in d.outcomes && r !in d.discarded)
    && (r in d.waiters <==> r in d.asked && r !in d.timedOut && r !in d.done)
    && d.timers[r] == (if r in d.waiters then 1 else 0)
    && (r in d.timedOut ==> r in d.asked)
    && (r in d.abandoned <==> r in d.timedOut && r !in d.done)
    && (r in d.discarded <==> r in d.timedOut && r in d.done)
    && (r in d.answers <==> r in d.asked && r in d.done && r !in d.timedOut)
    && (r in d.answers ==> d.answers[r] == [FinalText(d, r)])
    && (r in d.settled <==> r in d.declared && if r in d.done then r !in d.asked else r in d.outcomes)
    && (r in d.settled ==> d.settled[r] == Stash(FinalText(d, r), r in d.done))
  }

  ghost predicate HoldsFor(d: Desk, r: RunId) {
    OnceFor(d, r) && (r in d.strays || InvFor(d, r))
  }

  ghost predicate DeskInv(d: Desk) {
    forall r :: HoldsFor(d, r)
  }

  lemma EmptyDeskHolds()
    ensures DeskInv(EMPTY_DESK)
  {
  }

  /** Nothing about `r` differs between the two desks. */
  ghost predicate SameFor(d: Desk, e: Desk, r: RunId) {
    && (r in d.awaited <==> r in e.awaited) && (r in d.waiters <==> r in e.waiters)
    && (r in d.abandoned <==> r in e.abandoned) && (r in d.declared <==> r in e.declared)
    && (r in d.done <==> r in e.done) && (r in d.asked <==> r in e.asked)
    && (r in d.timedOut <==> r in e.timedOut) && (r in d.strays <==> r in e.strays) && d.timers[r] == e.timers[r] && (r in d.discarded <==> r in e.discarded)
    && (r in d.settled <==> r in e.settled) && (r in d.settled && r in e.settled ==> d.settled[r] == e.settled[r])
    && (r in d.outcomes <==> r in e.outcomes) && (r in d.outcomes && r in e.outcomes ==> d.outcomes[r] == e.outcomes[r])
    && (r in d.answers <==> r in e.answers) && (r in d.answers && r in e.answers ==> d.answers[r] == e.answers[r])
  }

  lemma OnlyOneChanges(d: Desk, e: Desk, r: RunId)
    requires DeskInv(d) && HoldsFor(e, r)
    requires forall q :: q != r ==> SameFor(d, e, q)
    ensures DeskInv(e)
  {
    forall q ensures HoldsFor(e, q) {
      if q != r {
        assert SameFor(d, e, q) && HoldsFor(d, q);
      }
    }
  }

  lemma DeclareKeeps(d: Desk, r: RunId, willWait: bool)
    requires DeskInv(d) && r !in d.declared && r !in d.done
    ensures DeskInv(Declare(d, r, willWait))
  {
    assert HoldsFor(d, r);
    OnlyOneChanges(d, Declare(d, r, willWait), r);
  }

  lemma StashKeeps(d: Desk, r: RunId, text: string)
    requires DeskInv(d)
    ensures DeskInv(StashOutcome(d, r, text))
  {
    assert HoldsFor(d, r);
    OnlyOneChanges(d, StashOutcome(d, r, text), r);
  }

  lemma SettleKeeps(d: Desk, r: RunId)
    requires DeskInv(d) && r !in d.done
    ensures DeskInv(Settle(d, r))
  {
    var e := Settle(d, r);
    assert HoldsFor(d, r);
    SettleHolds(d, r);
    hide HoldsFor;
    hide Settle;
    hide SameFor;
    forall q | q != r ensures SameFor(d, e, q) {
      SettleFrames(d, r, q);
    }
    OnlyOneChanges(d, e, r);
  }

  lemma SettleFrames(d: Desk, r: RunId, q: RunId)
    requires q != r
    ensures SameFor(d, Settle(d, r), q)
  {
    if r in d.awaited && r !in d.abandoned && r in d.waiters {
      var waited := d.(done := d.done + {r}, awaited := d.awaited - {r}, waiters := d.waiters - {r}, timers := d.timers - multiset{r});
      assert SameFor(d, waited, q);
      DeliverFrames(waited, r, if r in d.settled then d.settled[r].text else "", q);
    }
  }

  lemma DeliverFrames(d: Desk, r: RunId, text: string, q: RunId)
    requires q != r
    ensures SameFor(d, Deliver(d, r, text), q)
  {
  }

  lemma SettleHolds(d: Desk, r: RunId)
    requires HoldsFor(d, r) && r !in d.done
    ensures HoldsFor(Settle(d, r), r)
  {
    assert OnceFor(Settle(d, r), r);
  }

  lemma SettleAwaited(d: Desk, r: RunId)
    ensures Settle(d, r).awaited == d.awaited - {r}
  {
  }

  lemma WaitKeeps(d: Desk, r: RunId)
    requires DeskInv(d)
    ensures DeskInv(Wait(d, r))
  {
    assert HoldsFor(d, r);
    OnlyOneChanges(d, Wait(d, r), r);
  }

  lemma ExpireKeeps(d: Desk, r: RunId)
    requires DeskInv(d) && d.timers[r] > 0
    ensures DeskInv(Expire(d, r))
  {
    assert HoldsFor(d, r);
    OnlyOneChanges(d, Expire(d, r), r);
  }

  // ----- what callers rely on

  /** None of the four collections mentions the run. */
  predicate Forgotten(d: Desk, r: RunId) {
    r !in d.awaited && r !in d.waiters && r !in d.settled && r !in d.abandoned
  }

  /** Once a run has settled and its caller has asked, once, the caller has exactly one
      answer, the run's own text, unless its wait ran out first; and nothing of
      the exchange stays behind. */
  lemma ExchangeIsComplete(d: Desk, r: RunId)
    requires DeskInv(d) && r in d.declared && r in d.done && r in d.asked && r !in d.strays
    ensures AnswersTo(d, r) == if r in d.timedOut then [] else [FinalText(d, r)]
    ensures r in d.discarded <==> r in d.timedOut
    ensures Forgotten(d, r)
  {
    assert HoldsFor(d, r);
  }

  /** However often it is asked for, a run is answered at most once; and for a caller
      that asks once the answer is never lost: it is stashed, or still to come. */
  lemma AnswerIsNeverLost(d: Desk, r: RunId)
    requires DeskInv(d)
    ensures |AnswersTo(d, r)| <= 1
    ensures r in d.declared && r !in d.strays ==>
              && (r in d.discarded ==> r in d.timedOut)
              && (r in d.done && r !in d.asked ==> r in d.settled && d.settled[r] == Stash(FinalText(d, r), true))
              && (r !in d.done && r in d.asked && r !in d.timedOut ==> r in d.waiters)
  {
    assert HoldsFor(d, r);
  }

  /** Waiting a second time on a settled run registers a waiter nobody will ever call. */
  lemma SecondWaitHangs(d: Desk, r: RunId)
    requires DeskInv(d) && r in d.declared && r in d.done && r in d.asked && r !in d.strays
    ensures r in Wait(d, r).waiters && AnswersTo(Wait(d, r), r) == AnswersTo(d, r)
    ensures r !in Wait(d, r).awaited && Settle(Wait(d, r), r) == Wait(d, r)
  {
    assert HoldsFor(d, r);
  }

  /** A second wait before the run settles takes the first one's place but not its clock:
      the answer goes to the second, the first clock still runs when both sides are
      done, and when it runs out the run is marked abandoned for good. */
  lemma ReplacedClockStillRuns(d: Desk, r: RunId)
    requires DeskInv(d) && r in d.waiters && r !in d.strays
    ensures var e := Settle(Wait(d, r), r);
            && AnswersTo(e, r) == [FinalText(d, r)] && r !in e.waiters && r !in e.abandoned
            && e.timers[r] == 1 && r in Expire(e, r).abandoned && Settle(Expire(e, r), r) == Expire(e, r)
  {
    assert HoldsFor(d, r);
  }
}
