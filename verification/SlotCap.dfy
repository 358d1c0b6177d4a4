/** How many runs hold a slot in apps/api/src/kernel/kernel.ts, and when that stays under
    `maxConcurrentRuns`. */
module SlotCap {
  import opened SlotQueue
  import opened DelegationDesk
  import opened RunLifecycle
  import opened StepEffects
  import opened Sets

  /** The runs that were granted a slot and have not given it back. */
  function Holders(s: Slots): set<RunId> {
    set r | r in s.stage && s.stage[r].OwesRelease()
  }

  /** `acquireSlot` finds a slot free, going by the runs that are registered as active. */
  predicate GrantsNow(k: State, e: Event) {
    e.AdmitRun? && |k.slots.active| < e.cap
  }

  predicate GivesBack(k: State, e: Event) {
    e.ReleaseRun? && k.slots.queue == []
  }

  lemma HoldersStep(k: State, e: Event, r: RunId)
    requires Sound(k) && Enabled(k, e)
    ensures r in Holders(Next(k, e).slots) <==>
            if (e.AdmitRun? || e.RefuseSubmit?) && e.run == r then GrantsNow(k, e)
            else if e == ReleaseRun(r) then false
            else if e.ReleaseRun? && k.slots.queue != [] && k.slots.queue[0] == r then true
            else r in Holders(k.slots)
  {
    hide Sound;
    hide Next;
    hide Enabled;
    HeadOfSound(k);
    StepNamesItsRun(k, e);
    if r in k.slots.stage {
      RunsMoveForward(k, e, r);
    } else {
      NoOtherRunAppears(k, e, r);
      if (e.AdmitRun? || e.RefuseSubmit?) && e.run == r {
        NewRunStands(k, e);
      }
    }
  }

  /** Where a run stands before the step that is its own. */
  lemma StepNamesItsRun(k: State, e: Event)
    requires Enabled(k, e)
    ensures e.AdmitRun? || e.RefuseSubmit? ==> e.run !in k.slots.stage
    ensures e.ReleaseRun? ==> InStage(k.slots, e.run, Unwinding)
    ensures e.StartRun? ==> InStage(k.slots, e.run, Granted)
    ensures e.FinishRun? ==> InStage(k.slots, e.run, Running)
    ensures e.ClearRun? ==> InStage(k.slots, e.run, Rejected)
  {
  }

  lemma HoldersAfter(k: State, e: Event)
    requires Sound(k) && Enabled(k, e)
    ensures var held, next := Holders(k.slots), Holders(Next(k, e).slots);
            if GrantsNow(k, e) then e.run !in held && next == held + {e.run}
            else if e.ReleaseRun? then
              && e.run in held
              && (k.slots.queue != [] ==> k.slots.queue[0] !in held && k.slots.queue[0] != e.run)
              && next == held - {e.run} + if k.slots.queue == [] then {} else {k.slots.queue[0]}
            else next == held
  {
    hide Sound;
    hide Next;
    hide Enabled;
    StepNamesItsRun(k, e);
    if e.ReleaseRun? {
      HoldersRelease(k, e.run);
    } else {
      HoldersOtherwise(k, e);
    }
  }

  lemma HoldersRelease(k: State, run: RunId)
    requires Sound(k) && Enabled(k, ReleaseRun(run))
    ensures var held, next := Holders(k.slots), Holders(Next(k, ReleaseRun(run)).slots);
            && run in held
            && (k.slots.queue != [] ==> k.slots.queue[0] !in held && k.slots.queue[0] != run)
            && next == held - {run} + if k.slots.queue == [] then {} else {k.slots.queue[0]}
  {
    hide Sound;
    hide Next;
    hide Enabled;
    HeadOfSound(k);
    StepNamesItsRun(k, ReleaseRun(run));
    assert run in Holders(k.slots);
    hide Holders;
    forall r ensures r in Holders(Next(k, ReleaseRun(run)).slots) <==>
                     (r != run && r in Holders(k.slots)) || (k.slots.queue != [] && k.slots.queue[0] == r)
    {
      HoldersStep(k, ReleaseRun(run), r);
    }
  }

  lemma HoldersOtherwise(k: State, e: Event)
    requires Sound(k) && Enabled(k, e) && !e.ReleaseRun?
    ensures var held, next := Holders(k.slots), Holders(Next(k, e).slots);
            if GrantsNow(k, e) then e.run !in held && next == held + {e.run} else next == held
  {
    hide Sound;
    hide Next;
    hide Enabled;
    StepNamesItsRun(k, e);
    assert e.AdmitRun? || e.RefuseSubmit? ==> e.run !in Holders(k.slots);
    hide Holders;
    forall r ensures r in Holders(Next(k, e).slots) <==> r in Holders(k.slots) || (GrantsNow(k, e) && r == e.run) {
      HoldersStep(k, e, r);
    }
  }

  /** A run takes a slot only when it is admitted and finds one free, and a slot comes
      back only at a release that finds nobody waiting. */
  lemma HoldersCount(k: State, e: Event)
    requires Sound(k) && Enabled(k, e)
    ensures |Holders(Next(k, e).slots)| ==
            |Holders(k.slots)| + (if GrantsNow(k, e) then 1 else 0) - (if GivesBack(k, e) then 1 else 0)
  {
    HoldersAfter(k, e);
    hide Sound;
    hide Next;
    hide Enabled;
    hide Holders;
  }

  /** An active run holds a slot. */
  lemma ActiveHold(k: State)
    requires Sound(k)
    ensures |k.slots.active| <= |Holders(k.slots)|
  {
    var s := k.slots;
    forall r | r in s.active ensures r in Holders(s) {
      assert InStage(s, r, Running);
    }
    assert s.active.Keys <= Holders(s);
    SubsetIsSmaller(s.active.Keys, Holders(s));
  }

  // ----- over a whole trace

  predicate OneCap(events: seq<Event>, cap: nat) {
    forall e :: e in events && e.AdmitRun? ==> e.cap == cap
  }

  /** No state on the way has more holders than the cap. */
  ghost predicate StaysUnder(k: State, events: seq<Event>, cap: nat)
    requires Legal(k, events)
    decreases |events|
  {
    && |Holders(k.slots)| <= cap
    && (events != [] ==> StaysUnder(Next(k, events[0]), events[1..], cap))
  }

  /** Whenever a newcomer finds a slot free by the active runs, one is free by the holders. */
  ghost predicate GrantsCount(k: State, events: seq<Event>, cap: nat)
    requires Legal(k, events)
    decreases |events|
  {
    events != [] ==>
      && (GrantsNow(k, events[0]) ==> |Holders(k.slots)| < cap)
      && GrantsCount(Next(k, events[0]), events[1..], cap)
  }

  /** The cap holds throughout a trace if and only if no run is admitted while a run that
      was granted the last slot has not started yet, or one that ended has not released. */
  lemma {:induction false} CapHoldsIffGrantsCount(k: State, events: seq<Event>, cap: nat)
    requires Sound(k) && Legal(k, events) && OneCap(events, cap) && |Holders(k.slots)| <= cap
    ensures StaysUnder(k, events, cap) <==> GrantsCount(k, events, cap)
    decreases |events|
  {
    if events != [] {
      var e, next := events[0], Next(k, events[0]);
      StepStaysSound(k, e);
      HoldersCount(k, e);
      hide Sound;
      hide Holders;
      hide Next;
      hide Enabled;
      assert forall f :: f in events[1..] ==> f in events;
      if |Holders(next.slots)| <= cap {
        CapHoldsIffGrantsCount(next, events[1..], cap);
      } else {
        NeverUnder(next, events[1..], cap);
      }
    }
  }

  lemma NeverUnder(k: State, events: seq<Event>, cap: nat)
    requires Legal(k, events) && |Holders(k.slots)| > cap
    ensures !StaysUnder(k, events, cap)
  {
  }

  /** It does not hold of every trace: two runs admitted one after the other, before the
      first has started, are both active under a cap of one. */
  lemma CapIsExceeded(a: SessionId, b: SessionId, r: RunId, q: RunId) returns (k: State)
    requires a != b && r != q
    ensures Reachable(k) && k.slots.active == map[r := a, q := b] && |k.slots.active| == 2
  {
    var both := BothGranted(a, b, r, q);
    hide Reachable;
    hide Declare;
    var one := OneStep(both, StartRun(r));
    k := OneStep(one, StartRun(q));
    assert k.slots.active.Keys == {r, q};
  }

  lemma BothGranted(a: SessionId, b: SessionId, r: RunId, q: RunId) returns (k: State)
    requires a != b && r != q
    ensures Reachable(k) && k.slots.active == map[]
    ensures InStage(k.slots, r, Granted) && InStage(k.slots, q, Granted) && k.slots.sessionOf == map[r := a, q := b]
  {
    assert Legal(INITIAL, []) && After(INITIAL, []) == INITIAL;
    hide Reachable;
    var granted := OneGranted(INITIAL, a, r);
    k := OneGranted(granted, b, q);
  }

  /** A submission to a free session with no run active yet. */
  lemma OneGranted(k: State, session: SessionId, run: RunId) returns (next: State)
    requires Reachable(k) && k.slots.active == map[] && k.slots.queue == [] && !k.slots.shuttingDown
    requires session !in k.slots.reserved && Fresh(k.slots, run)
    ensures Reachable(next) && next.slots.active == map[] && next.slots.queue == [] && !next.slots.shuttingDown
    ensures next.slots.reserved == k.slots.reserved + {session}
    ensures next.slots.sessionOf == k.slots.sessionOf[run := session]
    ensures next.slots.stage == k.slots.stage[run := Granted]
  {
    hide Reachable;
    hide Declare;
    assert !Busy(k.slots, session);
    var claimed := OneStep(k, BeginSubmit(session));
    next := OneStep(claimed, AdmitRun(session, run, false, 1));
  }
}
