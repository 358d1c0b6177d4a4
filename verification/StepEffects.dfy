/** What each step of apps/api/src/kernel/kernel.ts does to a session, to a run and to the
    queue, told from their side: which step changes it, and what all others leave alone. */
module StepEffects {
  import opened SlotQueue
  import opened DelegationDesk
  import opened RunLifecycle

  // ----- sessions

  /** The steps that give a session back: its submission failed, or its run is over. */
  predicate Frees(k: State, e: Event, session: SessionId) {
    match e
    case FailSubmit(t) => t == session
    case RefuseSubmit(t, _, _) => t == session
    case ReleaseRun(run) => run in k.slots.sessionOf && k.slots.sessionOf[run] == session
    case ClearRun(run) => run in k.slots.sessionOf && k.slots.sessionOf[run] == session
    case _ => false
  }

  /** A session is busy after a step exactly when the step claimed it, or it was busy and
      the step did not give it back. */
  lemma BusyExactly(k: State, e: Event, session: SessionId)
    requires Sound(k) && Enabled(k, e)
    ensures Busy(Next(k, e).slots, session) <==>
            (e == BeginSubmit(session) && !k.slots.shuttingDown) || (Busy(k.slots, session) && !Frees(k, e, session))
  {
    StepStaysSound(k, e);
    SoundReservation(k, session);
    SoundReservation(Next(k, e), session);
    hide Sound;
    ReservedStep(k, e, session);
  }

  lemma ReservedStep(k: State, e: Event, session: SessionId)
    requires Enabled(k, e) && (Busy(k.slots, session) <==> session in k.slots.reserved)
    ensures session in Next(k, e).slots.reserved <==>
            || (e == BeginSubmit(session) && !k.slots.shuttingDown)
            || (session in k.slots.reserved && !Frees(k, e, session))
  {
    hide Busy;
    hide Begin;
    hide Fail;
    hide Refuse;
    hide Admit;
    hide Start;
    hide Finish;
    hide Release;
    hide Interrupt;
    hide Clear;
    hide Shutdown;
    hide InStage;
    hide Submitting;
    hide Fresh;
    var s := k.slots;
    match e
    case BeginSubmit(t) => BeginReserves(s, t);
    case FailSubmit(t) => GiveBack(s, t, RunId(""));
    case RefuseSubmit(t, run, _) => GiveBack(s, t, run);
    case AdmitRun(t, run, _, cap) => AdmitFields(s, t, run, cap);
    case StartRun(run) => LeavingFrees(s, run);
    case FinishRun(run) => FinishReserves(s, run);
    case ReleaseRun(run) => LeavingFrees(s, run);
    case ClearRun(run) => LeavingFrees(s, run);
    case InterruptSession(t) => QueueStepsReserve(s, t);
    case ShutDown => QueueStepsReserve(s, session);
    case _ =>
  }

  lemma BeginReserves(s: Slots, session: SessionId)
    ensures Begin(s, session).reserved ==
            if s.shuttingDown || Busy(s, session) then s.reserved else s.reserved + {session}
  {
    hide Busy;
  }

  lemma GiveBack(s: Slots, session: SessionId, run: RunId)
    ensures Fail(s, session).reserved == s.reserved - {session} == Refuse(s, session, run).reserved
  {
  }

  lemma LeavingFrees(s: Slots, run: RunId)
    requires run in s.sessionOf
    ensures Release(s, run).reserved == s.reserved - {s.sessionOf[run]} == Clear(s, run).reserved
    ensures Start(s, run).reserved == s.reserved
  {
  }

  lemma FinishReserves(s: Slots, run: RunId)
    ensures Finish(s, run).reserved == s.reserved
  {
  }

  lemma QueueStepsReserve(s: Slots, session: SessionId)
    ensures Interrupt(s, session).reserved == s.reserved == Shutdown(s).reserved
    ensures Interrupt(s, session).active == s.active
  {
    hide FirstOf;
    hide HasActive;
  }

  lemma AdmitFields(s: Slots, session: SessionId, run: RunId, cap: nat)
    ensures var t := Admit(s, session, run, cap);
            && t.active == s.active && t.reserved == s.reserved && t.shuttingDown == s.shuttingDown
            && t.sessionOf == s.sessionOf[run := session]
            && t.queue == if |s.active| < cap then s.queue else s.queue + [run]
  {
  }

  /** A run's session never changes. */
  lemma RowsStay(k: State, e: Event)
    requires Enabled(k, e)
    ensures Next(k, e).slots.sessionOf ==
            if e.RefuseSubmit? || e.AdmitRun? then k.slots.sessionOf[e.run := e.session] else k.slots.sessionOf
  {
    hide Busy;
    hide FirstOf;
    hide HasActive;
    hide Settle;
    hide Wait;
    hide StashOutcome;
  }

  // ----- runs

  /** Where a run that has a row stands after a step. */
  function StageAfter(k: State, e: Event, r: RunId): Stage
    requires r in k.slots.stage
  {
    match k.slots.stage[r]
    case Queued =>
      if e.ReleaseRun? && k.slots.queue != [] && k.slots.queue[0] == r then Granted
      else if e.ShutDown? || (e.InterruptSession? && r in k.slots.sessionOf && k.slots.sessionOf[r] == e.session) then Rejected
      else Queued
    case Granted => if e == StartRun(r) then Running else Granted
    case Running => if e == FinishRun(r) then Unwinding else Running
    case Unwinding => if e == ReleaseRun(r) then Completed else Unwinding
    case Rejected => if e == ClearRun(r) then Cancelled else Rejected
    case _ => k.slots.stage[r]
  }

  /** The life of a run. It leaves the queue only as its head, woken by a release, or
      rejected by a shutdown or an interruption of its own session; from then on only
      its own steps move it; and once it is over nothing does. */
  lemma RunsMoveForward(k: State, e: Event, r: RunId)
    requires Sound(k) && Enabled(k, e) && r in k.slots.stage
    ensures InStage(Next(k, e).slots, r, StageAfter(k, e, r))
  {
    match e
    case ReleaseRun(run) => ReleaseMoves(k, run, r);
    case InterruptSession(session) => InterruptMoves(k, session, r);
    case ShutDown => ShutDownMoves(k, r);
    case _ => OwnStepMoves(k, e, r);
  }

  lemma OwnStepMoves(k: State, e: Event, r: RunId)
    requires Enabled(k, e) && r in k.slots.stage && !e.ReleaseRun? && !e.InterruptSession? && !e.ShutDown?
    ensures InStage(Next(k, e).slots, r, StageAfter(k, e, r))
  {
    hide Next;
    if e.StartRun? || e.FinishRun? || e.ClearRun? {
      RunStages(k, e);
    } else {
      OtherStages(k, e, r);
    }
  }

  lemma RunStages(k: State, e: Event)
    requires Enabled(k, e) && (e.StartRun? || e.FinishRun? || e.ClearRun?)
    ensures Next(k, e).slots.stage ==
            k.slots.stage[e.run := match e case StartRun(_) => Running case FinishRun(_) => Unwinding case _ => Cancelled]
  {
    hide Settle;
  }

  lemma OtherStages(k: State, e: Event, r: RunId)
    requires Enabled(k, e) && r in k.slots.stage && !e.ReleaseRun? && !e.InterruptSession? && !e.ShutDown?
    requires !e.StartRun? && !e.FinishRun? && !e.ClearRun?
    ensures InStage(Next(k, e).slots, r, k.slots.stage[r])
  {
    hide Busy;
    hide Wait;
    hide StashOutcome;
    hide Expire;
  }

  lemma ReleaseMoves(k: State, run: RunId, r: RunId)
    requires Sound(k) && Enabled(k, ReleaseRun(run)) && r in k.slots.stage
    ensures InStage(Next(k, ReleaseRun(run)).slots, r, StageAfter(k, ReleaseRun(run), r))
  {
    hide Sound;
    hide Release;
    ReleaseStages(k.slots, run, r);
    HeadOfSound(k);
  }

  lemma HeadOfSound(k: State)
    requires Sound(k)
    ensures k.slots.queue != [] ==> InStage(k.slots, k.slots.queue[0], Queued)
  {
    if k.slots.queue != [] {
      HeadIsQueued(k.slots);
    }
  }

  lemma ReleaseStages(s: Slots, run: RunId, r: RunId)
    requires run in s.sessionOf && r in s.stage
    ensures InStage(Release(s, run), r,
                    if s.queue != [] && s.queue[0] == r then Granted else if r == run then Completed else s.stage[r])
  {
  }

  lemma ShutDownMoves(k: State, r: RunId)
    requires Sound(k) && r in k.slots.stage
    ensures InStage(Next(k, ShutDown).slots, r, StageAfter(k, ShutDown, r))
  {
    assert r in k.slots.queue <==> InStage(k.slots, r, Queued);
    hide Sound;
  }

  lemma InterruptMoves(k: State, session: SessionId, r: RunId)
    requires Sound(k) && r in k.slots.stage
    ensures InStage(Next(k, InterruptSession(session)).slots, r, StageAfter(k, InterruptSession(session), r))
  {
    var s := k.slots;
    RowHasSession(s, r);
    if s.stage[r] == Queued && s.sessionOf[r] == session {
      InterruptRejects(k, session, r);
    } else {
      InterruptSpares(k, session, r);
    }
  }

  lemma InterruptSpares(k: State, session: SessionId, r: RunId)
    requires Sound(k) && r in k.slots.stage && r in k.slots.sessionOf
    requires k.slots.stage[r] != Queued || k.slots.sessionOf[r] != session
    ensures InStage(Interrupt(k.slots, session), r, k.slots.stage[r])
  {
    var i := FirstOf(k.slots, session);
    if i < |k.slots.queue| {
      assert k.slots.queue[i] in k.slots.queue;
      assert InStage(k.slots, k.slots.queue[i], Queued);
    }
  }

  /** The first place in a queue that holds a run of the session. */
  ghost predicate FirstAt(queue: seq<RunId>, sessionOf: map<RunId, SessionId>, session: SessionId, i: nat) {
    && i < |queue| && queue[i] in sessionOf && sessionOf[queue[i]] == session
    && forall j :: 0 <= j < i ==> !(queue[j] in sessionOf && sessionOf[queue[j]] == session)
  }

  /** A queued run is the only live one of its session, so it is the first. */
  lemma QueuedIsFirst(k: State, r: RunId) returns (i: nat)
    requires Sound(k) && InStage(k.slots, r, Queued)
    ensures r in k.slots.sessionOf && i < |k.slots.queue| && k.slots.queue[i] == r
    ensures FirstAt(k.slots.queue, k.slots.sessionOf, k.slots.sessionOf[r], i)
    ensures !HasActive(k.slots, k.slots.sessionOf[r])
    ensures forall j :: 0 <= j < |k.slots.queue| && j != i ==> OfOther(k.slots, j, k.slots.sessionOf[r])
  {
    var s := k.slots;
    assert r in s.queue && Live(s, r);
    i :| 0 <= i < |s.queue| && s.queue[i] == r;
    forall j | 0 <= j < |s.queue| && j != i ensures OfOther(s, j, s.sessionOf[r]) {
      assert s.queue[j] in s.queue && InStage(s, s.queue[j], Queued) && Live(s, s.queue[j]);
      assert s.queue[j] != s.queue[i];
    }
    forall q | q in s.active ensures s.active[q] != s.sessionOf[r] {
      assert InStage(s, q, Running) && Live(s, q);
    }
    forall j | 0 <= j < i ensures !(s.queue[j] in s.sessionOf && s.sessionOf[s.queue[j]] == s.sessionOf[r]) {
      assert OfOther(s, j, s.sessionOf[r]);
    }
  }

  ghost predicate OfOther(s: Slots, j: nat, session: SessionId)
    requires j < |s.queue|
  {
    s.queue[j] in s.sessionOf && s.sessionOf[s.queue[j]] != session
  }

  lemma InterruptRejects(k: State, session: SessionId, r: RunId)
    requires Sound(k) && InStage(k.slots, r, Queued) && r in k.slots.sessionOf && k.slots.sessionOf[r] == session
    ensures InStage(Interrupt(k.slots, session), r, Rejected)
  {
    var i := QueuedIsFirst(k, r);
    hide Sound;
    assert FirstOf(k.slots, session) == i;
  }

  /** An interruption takes the session's first queued run out, and it alone: the others
      keep their order, none of the session is left, and none is taken while a run of
      the session is active or when none of it is queued. */
  lemma InterruptTakesTheFirst(k: State, session: SessionId, i: nat)
    requires Sound(k)
    ensures var queue, t := k.slots.queue, Next(k, InterruptSession(session)).slots;
            && (FirstAt(queue, k.slots.sessionOf, session, i) ==>
                  && !HasActive(k.slots, session)
                  && t.queue == queue[..i] + queue[i + 1..] && InStage(t, queue[i], Rejected))
            && ((forall j: nat :: !FirstAt(queue, k.slots.sessionOf, session, j)) ==> t == k.slots)
            && (forall j :: 0 <= j < |t.queue| ==> !(t.queue[j] in t.sessionOf && t.sessionOf[t.queue[j]] == session))
            && t.active == k.slots.active && t.reserved == k.slots.reserved
  {
    var s := k.slots;
    var first := FirstOf(s, session);
    if first < |s.queue| {
      var r := s.queue[first];
      assert r in s.queue && InStage(s, r, Queued);
      var at := QueuedIsFirst(k, r);
      hide Sound;
      assert at == first && FirstAt(s.queue, s.sessionOf, session, first);
      NoneIsLeft(s, session, first);
      assert Interrupt(s, session).queue == s.queue[..first] + s.queue[first + 1..];
      assert InStage(Interrupt(s, session), r, Rejected);
      assert FirstAt(s.queue, s.sessionOf, session, i) ==> i == first;
    } else {
      hide Sound;
      assert !FirstAt(s.queue, s.sessionOf, session, i);
    }
  }

  lemma NoneIsLeft(s: Slots, session: SessionId, i: nat)
    requires i < |s.queue| && forall j :: 0 <= j < |s.queue| && j != i ==> OfOther(s, j, session)
    ensures var rest := s.queue[..i] + s.queue[i + 1..];
            forall j :: 0 <= j < |rest| ==> !(rest[j] in s.sessionOf && s.sessionOf[rest[j]] == session)
  {
    var rest := s.queue[..i] + s.queue[i + 1..];
    forall j | 0 <= j < |rest| ensures !(rest[j] in s.sessionOf && s.sessionOf[rest[j]] == session) {
      var from := if j < i then j else j + 1;
      assert rest[j] == s.queue[from] && OfOther(s, from, session);
    }
  }

  /** An active run of the session, or a first queued one. */
  ghost predicate Stoppable(queue: seq<RunId>, active: map<RunId, SessionId>, sessionOf: map<RunId, SessionId>, session: SessionId) {
    (exists r :: r in active && active[r] == session) || (exists i: nat :: FirstAt(queue, sessionOf, session, i))
  }

  /** `rest` is the queue without the session's first run, or all of it. */
  ghost predicate FirstIsOut(queue: seq<RunId>, sessionOf: map<RunId, SessionId>, session: SessionId, rest: seq<RunId>) {
    && (forall i: nat :: FirstAt(queue, sessionOf, session, i) ==> rest == queue[..i] + queue[i + 1..])
    && ((forall i: nat :: !FirstAt(queue, sessionOf, session, i)) ==> rest == queue)
  }

  lemma InterruptStops(k: State, session: SessionId)
    requires Sound(k)
    ensures var s := k.slots;
            && FirstIsOut(s.queue, s.sessionOf, session, Next(k, InterruptSession(session)).slots.queue)
            && (Stoppable(s.queue, s.active, s.sessionOf, session) <==>
                  HasActive(s, session) || FirstOf(s, session) < |s.queue|)
  {
    forall i: nat {
      InterruptTakesTheFirst(k, session, i);
    }
    var first := FirstOf(k.slots, session);
    assert first < |k.slots.queue| ==> FirstAt(k.slots.queue, k.slots.sessionOf, session, first);
  }

  /** A new run is queued, last, exactly when all slots are taken; a refused one is over. */
  lemma NewRunStands(k: State, e: Event)
    requires Enabled(k, e) && (e.AdmitRun? || e.RefuseSubmit?)
    ensures var t := Next(k, e).slots;
            if e.RefuseSubmit? then InStage(t, e.run, Refused) && t.queue == k.slots.queue
            else if |k.slots.active| >= e.cap then InStage(t, e.run, Queued) && t.queue == k.slots.queue + [e.run]
            else InStage(t, e.run, Granted) && t.queue == k.slots.queue
  {
  }

  /** No other step brings a run into being. */
  lemma NoOtherRunAppears(k: State, e: Event, r: RunId)
    requires Sound(k) && Enabled(k, e) && r !in k.slots.stage
    ensures r in Next(k, e).slots.stage ==> (e.AdmitRun? || e.RefuseSubmit?) && e.run == r
  {
    assert !InStage(k.slots, r, Queued);
    if k.slots.queue != [] {
      HeadIsQueued(k.slots);
    }
    hide Sound;
    hide Busy;
    hide HasActive;
    hide Settle;
    hide Wait;
    hide StashOutcome;
    if e.InterruptSession? {
      var i := FirstOf(k.slots, e.session);
      assert i < |k.slots.queue| ==> k.slots.queue[i] in k.slots.queue;
    }
  }

  /** Only three steps take runs out of the queue: a release its head, an interruption
      one run, a shutdown all; and only an admission adds one. */
  lemma QueueMovesOnlyBy(k: State, e: Event)
    requires Enabled(k, e) && !e.InterruptSession?
    ensures Next(k, e).slots.queue ==
            match e
            case ReleaseRun(_) => if k.slots.queue == [] then [] else k.slots.queue[1..]
            case ShutDown => []
            case AdmitRun(_, run, _, cap) => if |k.slots.active| < cap then k.slots.queue else k.slots.queue + [run]
            case _ => k.slots.queue
  {
    hide Busy;
    hide Settle;
    hide Wait;
    hide StashOutcome;
  }

  /** Every release hands its slot to the head of the queue, if there is one. */
  lemma ReleaseWakesTheHead(k: State, run: RunId)
    requires Sound(k) && Enabled(k, ReleaseRun(run))
    ensures var t := Next(k, ReleaseRun(run)).slots;
            && InStage(t, run, Completed) && !Busy(t, k.slots.sessionOf[run]) && t.active == k.slots.active
            && (k.slots.queue != [] ==> InStage(t, k.slots.queue[0], Granted) && t.queue == k.slots.queue[1..])
  {
    BusyExactly(k, ReleaseRun(run), k.slots.sessionOf[run]);
    RunsMoveForward(k, ReleaseRun(run), run);
    if k.slots.queue != [] {
      HeadIsQueued(k.slots);
      RunsMoveForward(k, ReleaseRun(run), k.slots.queue[0]);
    }
    QueueMovesOnlyBy(k, ReleaseRun(run));
    hide Sound;
    hide Busy;
  }

  // ----- the text a caller is owed

  /** What a run's caller is owed is what the run stashed while awaited, and no other
      step changes it. */
  lemma TextIsTheStash(k: State, e: Event, r: RunId)
    requires Enabled(k, e)
    ensures FinalText(Next(k, e).desk, r) ==
            if e.StashRun? && e.run == r && r in k.desk.awaited then e.text else FinalText(k.desk, r)
  {
    hide Begin;
    hide Fail;
    hide Refuse;
    hide Admit;
    hide Start;
    hide Finish;
    hide Release;
    hide Interrupt;
    hide Clear;
    hide Shutdown;
    hide InStage;
    hide Submitting;
    hide Fresh;
    if e.FinishRun? || e.ClearRun? {
      SettleKeepsText(k.desk, e.run);
      hide Settle;
    }
  }

  lemma SettleKeepsText(d: Desk, r: RunId)
    ensures Settle(d, r).outcomes == d.outcomes
  {
  }

  // ----- shutdown

  /** A shutdown rejects every queued run. */
  lemma ShutDownEmptiesTheQueue(k: State, r: RunId)
    requires Sound(k)
    ensures var t := Next(k, ShutDown).slots;
            t.queue == [] && t.shuttingDown && (r in k.slots.queue ==> InStage(t, r, Rejected))
  {
    if r in k.slots.queue {
      assert InStage(k.slots, r, Queued);
      RunsMoveForward(k, ShutDown, r);
    }
  }

  /** Only a shutdown closes submission, and nothing opens it again: whatever follows, no
      session is claimed any more. */
  lemma ClosedStep(k: State, e: Event)
    requires Enabled(k, e)
    ensures Next(k, e).slots.shuttingDown <==> k.slots.shuttingDown || e.ShutDown?
    ensures k.slots.shuttingDown ==> Next(k, e).slots.reserved <= k.slots.reserved
  {
    hide Busy;
    hide FirstOf;
    hide HasActive;
    hide Settle;
    hide Wait;
    hide StashOutcome;
  }

  lemma {:induction false} ShutDownIsFinal(k: State, events: seq<Event>)
    requires Legal(k, events) && k.slots.shuttingDown
    ensures After(k, events).slots.shuttingDown && After(k, events).slots.reserved <= k.slots.reserved
    decreases |events|
  {
    hide Next;
    hide Enabled;
    if events != [] {
      ClosedStep(k, events[0]);
      ShutDownIsFinal(Next(k, events[0]), events[1..]);
    }
  }
}
