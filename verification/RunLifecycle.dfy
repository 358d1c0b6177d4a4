/** The kernel's run lifecycle over whole runs of the system: the slots and the
    desk step together, and every interleaving of their steps is a trace. */
module RunLifecycle {
  import opened SlotQueue
  import opened DelegationDesk

  datatype State = State(slots: Slots, desk: Desk)

  const INITIAL := State(EMPTY, EMPTY_DESK)

  /** One atomic step between two awaits, or one thing a caller or a clock does. */
  datatype Event =
    | BeginSubmit(session: SessionId)
    | FailSubmit(session: SessionId)
    | RefuseSubmit(session: SessionId, run: RunId, willWait: bool)
    | AdmitRun(session: SessionId, run: RunId, willWait: bool, cap: nat)
    | StartRun(run: RunId)
    | StashRun(run: RunId, text: string)
    | FinishRun(run: RunId)
    | ReleaseRun(run: RunId)
    | InterruptSession(session: SessionId)
    | ClearRun(run: RunId)
    | ShutDown
    | WaitFor(run: RunId)
    | TimeOut(run: RunId)

  predicate Enabled(k: State, e: Event) {
    match e
    case BeginSubmit(_) => true
    case FailSubmit(session) => Submitting(k.slots, session)
    case RefuseSubmit(session, run, _) => Submitting(k.slots, session) && Fresh(k.slots, run)
    case AdmitRun(session, run, _, cap) => Submitting(k.slots, session) && Fresh(k.slots, run) && cap >= 1
    case StartRun(run) => InStage(k.slots, run, Granted) && run in k.slots.sessionOf
    case StashRun(run, _) => InStage(k.slots, run, Running)
    case FinishRun(run) => InStage(k.slots, run, Running)
    case ReleaseRun(run) => InStage(k.slots, run, Unwinding) && run in k.slots.sessionOf
    case InterruptSession(_) => true
    case ClearRun(run) => InStage(k.slots, run, Rejected) && run in k.slots.sessionOf
    case ShutDown => true
    case WaitFor(_) => true
    case TimeOut(run) => k.desk.timers[run] > 0
  }

  function Next(k: State, e: Event): State
    requires Enabled(k, e)
  {
    match e
    case BeginSubmit(session) => k.(slots := Begin(k.slots, session))
    case FailSubmit(session) => k.(slots := Fail(k.slots, session))
    case RefuseSubmit(session, run, willWait) =>
      State(Refuse(k.slots, session, run), Declare(k.desk, run, willWait))
    case AdmitRun(session, run, willWait, cap) =>
      State(Admit(k.slots, session, run, cap), Declare(k.desk, run, willWait))
    case StartRun(run) => k.(slots := Start(k.slots, run))
    case StashRun(run, text) => k.(desk := StashOutcome(k.desk, run, text))
    case FinishRun(run) => State(Finish(k.slots, run), Settle(k.desk, run))
    case ReleaseRun(run) => k.(slots := Release(k.slots, run))
    case InterruptSession(session) => k.(slots := Interrupt(k.slots, session))
    case ClearRun(run) => State(Clear(k.slots, run), Settle(k.desk, run))
    case ShutDown => k.(slots := Shutdown(k.slots))
    case WaitFor(run) => k.(desk := Wait(k.desk, run))
    case TimeOut(run) => k.(desk := Expire(k.desk, run))
  }

  ghost predicate Legal(k: State, events: seq<Event>)
    decreases |events|
  {
    events == [] || (Enabled(k, events[0]) && Legal(Next(k, events[0]), events[1..]))
  }

  ghost function After(k: State, events: seq<Event>): State
    requires Legal(k, events)
    decreases |events|
  {
    if events == [] then k else After(Next(k, events[0]), events[1..])
  }

  // ----- the invariant of the whole

  predicate Settled(s: Slots, r: RunId) {
    InStage(s, r, Unwinding) || InStage(s, r, Completed) || InStage(s, r, Cancelled)
  }

  /** A run is settled once it has left `execute` or the queue, and declared only if it has a row. */
  ghost predicate Linked(k: State) {
    && (forall r :: r in k.desk.done <==> Settled(k.slots, r))
    && (forall r :: r in k.desk.declared ==> r in k.slots.stage)
  }

  ghost predicate Sound(k: State) {
    Inv(k.slots) && DeskInv(k.desk) && Linked(k)
  }

  /** The step of `e` changes at most the stage of `r`, and `r` keeps whether it is settled. */
  lemma LinkedIsFramed(s: Slots, t: Slots, r: RunId)
    requires OnlyMoves(s, t, r) && (Settled(s, r) <==> Settled(t, r)) && (r in s.stage ==> r in t.stage)
    ensures forall q :: Settled(s, q) <==> Settled(t, q)
    ensures forall q :: q in s.stage ==> q in t.stage
  {
    StillOwed(s, t, r);
    forall q ensures Settled(s, q) <==> Settled(t, q) {
      if q != r {
        assert InStage(s, q, Unwinding) <==> InStage(t, q, Unwinding);
        assert InStage(s, q, Completed) <==> InStage(t, q, Completed);
        assert InStage(s, q, Cancelled) <==> InStage(t, q, Cancelled);
      }
    }
  }

  lemma SlotsStaySound(k: State, e: Event)
    requires Sound(k) && Enabled(k, e)
    ensures Inv(Next(k, e).slots)
  {
    match e
    case BeginSubmit(session) => BeginKeeps(k.slots, session);
    case FailSubmit(session) => FailKeeps(k.slots, session);
    case RefuseSubmit(session, run, _) => RefuseKeeps(k.slots, session, run);
    case AdmitRun(session, run, _, cap) => AdmitKeeps(k.slots, session, run, cap);
    case StartRun(run) => StartKeeps(k.slots, run);
    case FinishRun(run) => FinishKeeps(k.slots, run);
    case ReleaseRun(run) => ReleaseKeeps(k.slots, run);
    case InterruptSession(session) => InterruptKeeps(k.slots, session);
    case ClearRun(run) => ClearKeeps(k.slots, run);
    case ShutDown => ShutdownKeeps(k.slots);
    case _ =>
  }

  lemma DeskStaysSound(k: State, e: Event)
    requires Sound(k) && Enabled(k, e)
    ensures DeskInv(Next(k, e).desk)
  {
    match e
    case RefuseSubmit(_, run, willWait) => DeclareKeeps(k.desk, run, willWait);
    case AdmitRun(_, run, willWait, _) => DeclareKeeps(k.desk, run, willWait);
    case StashRun(run, text) => StashKeeps(k.desk, run, text);
    case FinishRun(run) => SettleKeeps(k.desk, run);
    case ClearRun(run) => SettleKeeps(k.desk, run);
    case WaitFor(run) => WaitKeeps(k.desk, run);
    case TimeOut(run) => ExpireKeeps(k.desk, run);
    case _ =>
  }

  /** The two steps that settle a run. */
  predicate Settles(e: Event, r: RunId) {
    (e.FinishRun? && e.run == r) || (e.ClearRun? && e.run == r)
  }

  lemma SlotsSettle(k: State, e: Event)
    requires Enabled(k, e) && Inv(k.slots)
    ensures forall q :: Settled(Next(k, e).slots, q) <==> Settled(k.slots, q) || Settles(e, q)
    ensures forall q :: q in k.slots.stage ==> q in Next(k, e).slots.stage
  {
    hide FieldsMatch;
    hide Inv;
    hide Settled;
    hide Admit;
    hide Start;
    hide Finish;
    hide Clear;
    hide Release;
    hide Interrupt;
    hide Shutdown;
    hide Begin;
    hide Fail;
    hide Refuse;
    hide Live;
    hide OwesRelease;
    hide InStage;
    hide Submitting;
    hide Fresh;
    InvHasFields(k.slots);
    var s := k.slots;
    match e
    case RefuseSubmit(session, run, _) => RefuseKeepsSettled(s, session, run);
    case AdmitRun(session, run, _, cap) => AdmitKeepsSettled(s, session, run, cap);
    case StartRun(run) => StartKeepsSettled(s, run);
    case FinishRun(run) => FinishSettles(s, run);
    case ClearRun(run) => ClearSettles(s, run);
    case ReleaseRun(run) => ReleaseKeepsSettled(s, run);
    case InterruptSession(session) => InterruptKeepsSettled(s, session);
    case ShutDown => ShutdownKeepsSettled(s);
    case BeginSubmit(session) => ClaimKeepsSettled(s, session);
    case FailSubmit(session) => ClaimKeepsSettled(s, session);
    case _ =>
  }

  lemma InvHasFields(s: Slots)
    requires Inv(s)
    ensures FieldsMatch(s)
  {
  }

  lemma ClaimKeepsSettled(s: Slots, session: SessionId)
    ensures forall q :: Settled(s, q) <==> Settled(Begin(s, session), q)
    ensures forall q :: Settled(s, q) <==> Settled(Fail(s, session), q)
    ensures Begin(s, session).stage == s.stage == Fail(s, session).stage
  {
  }

  lemma RefuseKeepsSettled(s: Slots, session: SessionId, r: RunId)
    requires Fresh(s, r)
    ensures forall q :: Settled(s, q) <==> Settled(Refuse(s, session, r), q)
    ensures forall q :: q in s.stage ==> q in Refuse(s, session, r).stage
  {
    AddKeepsSettled(s, Refuse(s, session, r), r);
  }

  lemma AddKeepsSettled(s: Slots, t: Slots, r: RunId)
    requires r !in s.stage && r in t.stage && t.stage == s.stage[r := t.stage[r]]
    requires t.stage[r].Refused? || t.stage[r].Granted? || t.stage[r].Queued?
    ensures forall q :: Settled(s, q) <==> Settled(t, q)
    ensures forall q :: q in s.stage ==> q in t.stage
  {
  }

  lemma AdmitKeepsSettled(s: Slots, session: SessionId, r: RunId, cap: nat)
    requires Fresh(s, r)
    ensures forall q :: Settled(s, q) <==> Settled(Admit(s, session, r, cap), q)
    ensures forall q :: q in s.stage ==> q in Admit(s, session, r, cap).stage
  {
    AddKeepsSettled(s, Admit(s, session, r, cap), r);
  }

  lemma StartKeepsSettled(s: Slots, r: RunId)
    requires InStage(s, r, Granted) && r in s.sessionOf
    ensures forall q :: Settled(s, q) <==> Settled(Start(s, r), q)
    ensures forall q :: q in s.stage ==> q in Start(s, r).stage
  {
  }

  lemma FinishSettles(s: Slots, r: RunId)
    requires InStage(s, r, Running)
    ensures forall q :: Settled(Finish(s, r), q) <==> Settled(s, q) || q == r
    ensures forall q :: q in s.stage ==> q in Finish(s, r).stage
  {
  }

  lemma ClearSettles(s: Slots, r: RunId)
    requires InStage(s, r, Rejected) && r in s.sessionOf
    ensures forall q :: Settled(Clear(s, r), q) <==> Settled(s, q) || q == r
    ensures forall q :: q in s.stage ==> q in Clear(s, r).stage
  {
  }

  lemma DeskSettles(k: State, e: Event)
    requires Enabled(k, e)
    ensures forall q :: q in Next(k, e).desk.done <==> q in k.desk.done || Settles(e, q)
    ensures forall q :: q in Next(k, e).desk.declared ==> q in k.desk.declared || q in Next(k, e).slots.stage
  {
    hide InStage;
    hide Submitting;
    hide Fresh;
    hide StashOutcome;
    hide Settle;
    hide Wait;
    hide Expire;
    hide Begin;
    hide Fail;
    hide Start;
    hide Finish;
    hide Release;
    hide Interrupt;
    hide Clear;
    hide Shutdown;
    var d := k.desk;
    match e
    case StashRun(run, text) => StashDone(d, run, text);
    case FinishRun(run) => SettleDone(d, run);
    case ClearRun(run) => SettleDone(d, run);
    case WaitFor(run) => WaitDone(d, run);
    case TimeOut(run) => WaitDone(d, run);
    case _ =>
  }

  lemma StashDone(d: Desk, r: RunId, text: string)
    ensures StashOutcome(d, r, text).done == d.done && StashOutcome(d, r, text).declared == d.declared
  {
  }

  lemma SettleDone(d: Desk, r: RunId)
    ensures Settle(d, r).done == d.done + {r} && Settle(d, r).declared == d.declared
  {
  }

  lemma WaitDone(d: Desk, r: RunId)
    ensures Wait(d, r).done == d.done && Wait(d, r).declared == d.declared
    ensures Expire(d, r).done == d.done && Expire(d, r).declared == d.declared
  {
  }

  lemma LinkStaysSound(k: State, e: Event)
    requires Sound(k) && Enabled(k, e)
    ensures Linked(Next(k, e))
  {
    SlotsSettle(k, e);
    DeskSettles(k, e);
    hide Inv;
    hide DeskInv;
    hide Next;
    hide Settled;
    hide Settles;
  }

  lemma InterruptKeepsSettled(s: Slots, session: SessionId)
    requires FieldsMatch(s)
    ensures forall q :: Settled(s, q) <==> Settled(Interrupt(s, session), q)
    ensures forall q :: q in s.stage ==> q in Interrupt(s, session).stage
  {
    var t := Interrupt(s, session);
    if t != s {
      var r := s.queue[FirstOf(s, session)];
      assert r in s.queue && InStage(s, r, Queued);
      assert OnlyMoves(s, t, r);
      LinkedIsFramed(s, t, r);
    }
  }

  lemma ShutdownKeepsSettled(s: Slots)
    requires FieldsMatch(s)
    ensures forall q :: Settled(s, q) <==> Settled(Shutdown(s), q)
    ensures forall q :: q in s.stage ==> q in Shutdown(s).stage
  {
    forall q ensures Settled(s, q) <==> Settled(Shutdown(s), q) {
      assert q in s.queue ==> InStage(s, q, Queued);
    }
  }

  lemma RowHasSession(s: Slots, r: RunId)
    requires FieldsMatch(s) && r in s.stage
    ensures r in s.sessionOf
  {
    assert r in s.stage.Keys;
  }

  lemma HeadIsQueued(s: Slots)
    requires FieldsMatch(s) && s.queue != []
    ensures InStage(s, s.queue[0], Queued)
  {
    assert s.queue[0] in s.queue;
  }

  lemma ReleaseKeepsSettled(s: Slots, r: RunId)
    requires Inv(s) && InStage(s, r, Unwinding)
    ensures forall q :: Settled(s, q) <==> Settled(Release(s, r), q)
    ensures forall q :: q in s.stage ==> q in Release(s, r).stage
  {
    hide FieldsMatch;
    hide Reserved;
    hide InOrder;
    hide ReleasedOnce;
    hide WakeUpPending;
    RowHasSession(s, r);
    var left, t := Leave(s, r, Completed), Release(s, r);
    assert OnlyMoves(s, left, r);
    LinkedIsFramed(s, left, r);
    if s.queue != [] {
      var head := s.queue[0];
      HeadIsQueued(s);
      assert OnlyMoves(left, t, head);
      LinkedIsFramed(left, t, head);
    }
  }

  lemma StepStaysSound(k: State, e: Event)
    requires Sound(k) && Enabled(k, e)
    ensures Sound(Next(k, e))
  {
    SlotsStaySound(k, e);
    DeskStaysSound(k, e);
    LinkStaysSound(k, e);
  }

  /** Every state any interleaving can reach satisfies the invariant. */
  lemma {:induction false} TracesStaySound(k: State, events: seq<Event>)
    requires Sound(k) && Legal(k, events)
    ensures Sound(After(k, events))
    decreases |events|
  {
    if events != [] {
      StepStaysSound(k, events[0]);
      TracesStaySound(Next(k, events[0]), events[1..]);
    }
  }

  lemma InitialIsSound()
    ensures Sound(INITIAL)
  {
    EmptyHolds();
    EmptyDeskHolds();
  }

  ghost predicate Reachable(k: State) {
    exists events :: Legal(INITIAL, events) && After(INITIAL, events) == k
  }

  lemma ReachableIsSound(k: State)
    requires Reachable(k)
    ensures Sound(k)
  {
    var events :| Legal(INITIAL, events) && After(INITIAL, events) == k;
    InitialIsSound();
    TracesStaySound(INITIAL, events);
  }

  // ----- safety

  /** A session has at most one live run, and none beside a submission. */
  lemma OneRunPerSession(k: State, r: RunId, q: RunId)
    requires Reachable(k) && Live(k.slots, r) && Live(k.slots, q)
    ensures r in k.slots.sessionOf && q in k.slots.sessionOf
    ensures k.slots.sessionOf[r] == k.slots.sessionOf[q] ==> r == q
    ensures !Submitting(k.slots, k.slots.sessionOf[r])
  {
    ReachableIsSound(k);
  }

  /** `reserved` is exactly the sessions with a submission under way or a live run,
      so the three tests of `hasActiveRunForSession` come down to the first. */
  lemma ReservedIsExact(k: State, session: SessionId)
    requires Reachable(k)
    ensures session in k.slots.reserved <==>
            Submitting(k.slots, session)
            || exists r :: Live(k.slots, r) && r in k.slots.sessionOf && k.slots.sessionOf[r] == session
    ensures Busy(k.slots, session) <==> session in k.slots.reserved
  {
    ReachableIsSound(k);
    SoundReservation(k, session);
  }

  lemma SoundReservation(k: State, session: SessionId)
    requires Sound(k)
    ensures session in k.slots.reserved <==>
            Submitting(k.slots, session)
            || exists r :: Live(k.slots, r) && r in k.slots.sessionOf && k.slots.sessionOf[r] == session
    ensures Busy(k.slots, session) <==> session in k.slots.reserved
  {
    var s := k.slots;
    if session in s.reserved && !Submitting(s, session) {
      var r := s.holder[session].run;
      assert Live(s, r) && s.sessionOf[r] == session;
    }
    if r :| r in s.active && s.active[r] == session {
      assert InStage(s, r, Running) && Live(s, r);
    }
    if i :| 0 <= i < |s.queue| && s.queue[i] in s.sessionOf && s.sessionOf[s.queue[i]] == session {
      assert s.queue[i] in s.queue;
      assert InStage(s, s.queue[i], Queued) && Live(s, s.queue[i]);
    }
  }

  /** No wake-up is lost: while a run waits for a slot, some run still owes a release. */
  lemma NoWakeUpIsLost(k: State)
    requires Reachable(k) && k.slots.queue != []
    ensures exists r :: OwesRelease(k.slots, r)
  {
    ReachableIsSound(k);
  }

  /** A run has released its slot exactly when it completed, and no run has twice. */
  lemma ReleasesAreExact(k: State, r: RunId)
    requires Reachable(k)
    ensures r in k.slots.released <==> InStage(k.slots, r, Completed)
    ensures Distinct(k.slots.released)
  {
    ReachableIsSound(k);
  }

  /** A run rejected from the queue never holds a slot, never runs and never releases. */
  lemma {:induction false} DroppedStaysOut(k: State, events: seq<Event>, r: RunId)
    requires Sound(k) && Legal(k, events) && r in k.slots.dropped
    ensures var s := After(k, events).slots;
            r in s.dropped && r !in s.active && r !in s.released && !OwesRelease(s, r)
    decreases |events|
  {
    if events == [] {
      assert InStage(k.slots, r, Rejected) || InStage(k.slots, r, Cancelled);
      assert !InStage(k.slots, r, Running) && !InStage(k.slots, r, Completed);
    } else {
      DroppedStaysDropped(k, events[0], r);
      StepStaysSound(k, events[0]);
      DroppedStaysOut(Next(k, events[0]), events[1..], r);
    }
  }

  lemma DroppedStaysDropped(k: State, e: Event, r: RunId)
    requires Enabled(k, e) && r in k.slots.dropped
    ensures r in Next(k, e).slots.dropped
  {
  }

  /** First come, first served among the runs that queued: a run is woken only
      after every earlier arrival has been woken or dropped. */
  lemma QueueIsFifo(k: State, i: nat, j: nat)
    requires Reachable(k) && i < j < |k.slots.arrivals|
    requires k.slots.arrivals[j] in k.slots.woken
    ensures k.slots.arrivals[i] in k.slots.woken || k.slots.arrivals[i] in k.slots.dropped
  {
    ReachableIsSound(k);
    var s := k.slots;
    var x, y := s.arrivals[i], s.arrivals[j];
    if x !in s.dropped {
      var before, rest := Without(s.arrivals[..j], s.dropped), Without(s.arrivals[j..], s.dropped);
      assert s.arrivals == s.arrivals[..j] + s.arrivals[j..];
      WithoutAppend(s.arrivals[..j], s.arrivals[j..], s.dropped);
      assert y !in s.dropped by {
        assert y !in s.queue;
        WithoutKeeps(s.arrivals, s.dropped, j);
      }
      assert s.arrivals[..j][i] == x;
      WithoutKeeps(s.arrivals[..j], s.dropped, i);
      var at :| 0 <= at < |before| && before[at] == x;
      assert rest[0] == y;
      assert (s.woken + s.queue)[|before|] == y;
      assert y !in s.queue;
      assert |before| < |s.woken|;
      assert (s.woken + s.queue)[at] == x;
    }
  }

  lemma {:induction false} WithoutKeeps(a: seq<RunId>, dropped: set<RunId>, i: nat)
    requires i < |a|
    ensures a[i] !in dropped ==> a[i] in Without(a, dropped)
    ensures forall r :: r in Without(a, dropped) ==> r !in dropped
  {
    if i > 0 {
      WithoutKeeps(a[1..], dropped, i - 1);
      assert a[1..][i - 1] == a[i];
    } else {
      WithoutIsClean(a, dropped);
    }
  }

  lemma {:induction false} WithoutIsClean(a: seq<RunId>, dropped: set<RunId>)
    ensures forall r :: r in Without(a, dropped) ==> r !in dropped
  {
    if a != [] {
      WithoutIsClean(a[1..], dropped);
    }
  }

  // ----- the awaited answer, end to end

  /** A caller that waits once gets its run's own text, once, unless its wait ran out
      first; then, and only then, the answer is thrown away. When the run is over
      and the caller has asked, the kernel no longer remembers either of them. */
  lemma AwaitedAnswerArrives(k: State, r: RunId)
    requires Reachable(k) && r in k.desk.declared
    requires InStage(k.slots, r, Completed) || InStage(k.slots, r, Cancelled)
    requires r in k.desk.asked && r !in k.desk.strays
    ensures AnswersTo(k.desk, r) == if r in k.desk.timedOut then [] else [FinalText(k.desk, r)]
    ensures r in k.desk.discarded <==> r in k.desk.timedOut
    ensures Forgotten(k.desk, r)
  {
    ReachableIsSound(k);
    assert Settled(k.slots, r);
    ExchangeIsComplete(k.desk, r);
  }

  /** At most one answer at any moment, however often a run is waited on, and no waiter
      left behind by one that was waited on at most once and is over. */
  lemma NobodyWaitsForAnEndedRun(k: State, r: RunId)
    requires Reachable(k)
    ensures |AnswersTo(k.desk, r)| <= 1
    ensures r in k.desk.declared && r !in k.desk.strays && Settled(k.slots, r) ==> r !in k.desk.waiters
  {
    ReachableIsSound(k);
    assert HoldsFor(k.desk, r);
  }

  /** The awaited mark of a finished run stays behind exactly when its submission
      failed after the mark was set. */
  lemma AwaitedMarkLeaks(k: State, r: RunId)
    requires Reachable(k) && r in k.desk.declared && !Live(k.slots, r)
    ensures r in k.desk.awaited <==> InStage(k.slots, r, Refused)
  {
    ReachableIsSound(k);
    assert HoldsFor(k.desk, r);
    assert r in k.slots.stage;
  }

  /** And such a submission can be made: one that is awaited and fails once its row exists. */
  lemma MarkStaysBehind(session: SessionId, r: RunId) returns (k: State)
    ensures Reachable(k) && r in k.desk.declared && !Live(k.slots, r) && r in k.desk.awaited
    ensures k.slots.reserved == {} && k.slots.active == map[] && k.slots.queue == []
  {
    assert Legal(INITIAL, []) && After(INITIAL, []) == INITIAL;
    hide Reachable;
    var k1 := OneStep(INITIAL, BeginSubmit(session));
    k := OneStep(k1, RefuseSubmit(session, r, true));
  }

  // ----- liveness

  predicate Internal(e: Event) {
    e.StartRun? || e.FinishRun? || e.ReleaseRun? || e.ClearRun?
  }

  function At(s: Slots, stage: Stage): set<RunId> {
    set r | r in s.stage && s.stage[r] == stage
  }

  /** How many internal steps the runs in the system can still take. */
  function Work(s: Slots): nat {
    4 * |At(s, Queued)| + 3 * |At(s, Granted)| + 2 * |At(s, Running)| + |At(s, Unwinding)| + |At(s, Rejected)|
  }

  lemma MoveCounts(s: Slots, t: Slots, r: RunId, g: Stage)
    requires r in s.stage && t.stage == s.stage[r := g] && g != s.stage[r]
    ensures |At(t, g)| == |At(s, g)| + 1
    ensures |At(t, s.stage[r])| == |At(s, s.stage[r])| - 1
    ensures forall h :: h != g && h != s.stage[r] ==> At(t, h) == At(s, h)
  {
    assert At(t, g) == At(s, g) + {r};
    assert At(t, s.stage[r]) == At(s, s.stage[r]) - {r};
  }

  /** Every internal step uses up some of the remaining work. */
  lemma InternalStepProgresses(k: State, e: Event)
    requires Sound(k) && Enabled(k, e) && Internal(e)
    ensures Work(Next(k, e).slots) < Work(k.slots)
  {
    var s, t := k.slots, Next(k, e).slots;
    match e
    case StartRun(run) => MoveCounts(s, t, run, Running);
    case FinishRun(run) => MoveCounts(s, t, run, Unwinding);
    case ClearRun(run) => MoveCounts(s, t, run, Cancelled);
    case ReleaseRun(run) => ReleaseProgresses(s, run);
  }

  lemma ReleaseProgresses(s: Slots, r: RunId)
    requires FieldsMatch(s) && InStage(s, r, Unwinding)
    ensures Work(Release(s, r)) < Work(s)
  {
    var left, t := Leave(s, r, Completed), Release(s, r);
    MoveCounts(s, left, r, Completed);
    if s.queue != [] {
      var head := s.queue[0];
      assert head in s.queue && InStage(s, head, Queued);
      MoveCounts(left, t, head, Granted);
    }
  }

  lemma {:induction false} InternalTracesAreBounded(k: State, events: seq<Event>)
    requires Sound(k) && Legal(k, events)
    requires forall e :: e in events ==> Internal(e)
    ensures |events| <= Work(k.slots)
    decreases |events|
  {
    if events != [] {
      StepStaysSound(k, events[0]);
      InternalStepProgresses(k, events[0]);
      InternalTracesAreBounded(Next(k, events[0]), events[1..]);
    }
  }

  /** No run is stranded: as long as one is live, some internal step can be taken,
      and such steps run out only when every run has ended. */
  lemma NoRunIsStranded(k: State, r: RunId) returns (e: Event)
    requires Reachable(k) && Live(k.slots, r)
    ensures Enabled(k, e) && Internal(e) && Work(Next(k, e).slots) < Work(k.slots)
  {
    ReachableIsSound(k);
    var s := k.slots;
    if s.stage[r] == Rejected {
      e := ClearRun(r);
    } else {
      var q := r;
      if s.stage[r] == Queued {
        assert InStage(s, r, Queued) && r in s.queue;
        q :| OwesRelease(s, q);
      }
      e := match s.stage[q] case Granted => StartRun(q) case Running => FinishRun(q) case _ => ReleaseRun(q);
    }
    InternalStepProgresses(k, e);
  }

  // ----- the theorems speak of something

  lemma {:induction false} OneMoreStep(k: State, events: seq<Event>, e: Event)
    requires Legal(k, events) && Enabled(After(k, events), e)
    ensures Legal(k, events + [e]) && After(k, events + [e]) == Next(After(k, events), e)
    decreases |events|
  {
    hide Next;
    hide Enabled;
    if events == [] {
      assert events + [e] == [e];
      assert [e][1..] == [];
    } else {
      OneMoreStep(Next(k, events[0]), events[1..], e);
      assert (events + [e])[1..] == events[1..] + [e];
    }
  }

  lemma StepsAreReachable(k: State, e: Event)
    requires Reachable(k) && Enabled(k, e)
    ensures Reachable(Next(k, e))
  {
    var events :| Legal(INITIAL, events) && After(INITIAL, events) == k;
    OneMoreStep(INITIAL, events, e);
  }

  /** Two submissions under a cap of one: the second run queues behind the first, whose
      waiting caller is answered, and whose release wakes the second. */
  lemma QueueForms(a: SessionId, b: SessionId, r: RunId, q: RunId, text: string) returns (full: State, later: State)
    requires a != b && r != q
    ensures Reachable(full) && full.slots.queue == [q] && full.desk.waiters == {r}
    ensures Reachable(later) && later.slots.queue == [] && later.slots.woken == [q]
    ensures InStage(later.slots, r, Completed) && r in later.desk.asked && AnswersTo(later.desk, r) == [text]
  {
    var busy := OneRunning(a, r);
    full := OneQueued(busy, a, b, r, q);
    later := QueueMoves(full, r, q, text);
  }

  lemma OneRunning(a: SessionId, r: RunId) returns (busy: State)
    ensures Reachable(busy) && busy.slots.active == map[r := a] && busy.slots.queue == [] == busy.slots.woken
    ensures busy.slots.reserved == {a} && !busy.slots.shuttingDown
    ensures busy.slots.stage == map[r := Running] && busy.slots.sessionOf == map[r := a]
    ensures busy.desk == Declare(EMPTY_DESK, r, true)
  {
    assert Legal(INITIAL, []) && After(INITIAL, []) == INITIAL;
    hide Reachable;
    var k1 := OneStep(INITIAL, BeginSubmit(a));
    var k2 := OneStep(k1, AdmitRun(a, r, true, 1));
    busy := OneStep(k2, StartRun(r));
  }

  lemma OneQueued(busy: State, a: SessionId, b: SessionId, r: RunId, q: RunId) returns (full: State)
    requires Reachable(busy) && busy.slots.active == map[r := a] && busy.slots.queue == [] == busy.slots.woken
    requires busy.slots.reserved == {a} && !busy.slots.shuttingDown && a != b && r != q
    requires busy.slots.stage == map[r := Running] && busy.slots.sessionOf == map[r := a]
    requires busy.desk == Declare(EMPTY_DESK, r, true)
    ensures Reachable(full) && full.slots.queue == [q] && full.slots.woken == [] && InStage(full.slots, r, Running)
    ensures full.desk == Wait(Declare(EMPTY_DESK, r, true), r)
  {
    hide Reachable;
    var s := busy.slots;
    assert !Busy(s, b);
    var k1 := OneStep(busy, BeginSubmit(b));
    assert |s.active| == 1 by {
      assert s.active.Keys == {r};
    }
    var k2 := OneStep(k1, AdmitRun(b, q, false, 1));
    full := OneStep(k2, WaitFor(r));
  }

  lemma RunningHasSession(k: State, r: RunId)
    requires Reachable(k) && InStage(k.slots, r, Running)
    ensures r in k.slots.sessionOf
  {
    ReachableIsSound(k);
    RowHasSession(k.slots, r);
  }

  lemma AnswerMoves(r: RunId, text: string)
    ensures var desk := Settle(StashOutcome(Wait(Declare(EMPTY_DESK, r, true), r), r, text), r);
            r in desk.asked && AnswersTo(desk, r) == [text]
  {
  }

  lemma SlotMoves(s: Slots, r: RunId, q: RunId)
    requires s.queue == [q] && s.woken == [] && r != q && r in s.sessionOf
    ensures InStage(Finish(s, r), r, Unwinding) && Finish(s, r).sessionOf == s.sessionOf
    ensures var t := Release(Finish(s, r), r); t.queue == [] && t.woken == [q] && InStage(t, r, Completed)
  {
  }

  lemma QueueMoves(full: State, r: RunId, q: RunId, text: string) returns (later: State)
    requires Reachable(full) && full.slots.queue == [q] && full.slots.woken == [] && InStage(full.slots, r, Running)
    requires full.desk == Wait(Declare(EMPTY_DESK, r, true), r) && r != q
    ensures Reachable(later) && later.slots.queue == [] && later.slots.woken == [q]
    ensures InStage(later.slots, r, Completed) && r in later.desk.asked && AnswersTo(later.desk, r) == [text]
  {
    RunningHasSession(full, r);
    AnswerMoves(r, text);
    SlotMoves(full.slots, r, q);
    hide Reachable;
    hide Sound;
    hide StashOutcome;
    hide Settle;
    hide Finish;
    hide Release;
    hide Wait;
    var k1 := OneStep(full, StashRun(r, text));
    var k2 := OneStep(k1, FinishRun(r));
    later := OneStep(k2, ReleaseRun(r));
  }

  lemma OneStep(k: State, e: Event) returns (next: State)
    requires Reachable(k) && Enabled(k, e)
    ensures Reachable(next) && next == Next(k, e)
  {
    StepsAreReachable(k, e);
    next := Next(k, e);
  }
}
