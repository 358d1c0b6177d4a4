/** Session reservation and concurrency slots in apps/api/src/kernel/kernel.ts,
    as the atomic steps between two `await`s. */
module SlotQueue {

  datatype RunId = RunId(text: string)
  datatype SessionId = SessionId(text: string)

  /** Where a run's `schedule` stands. A run owes a release from the grant of its
      slot until `releaseSlot`; `Refused` is a row whose submission then failed. */
  datatype Stage = Queued | Granted | Running | Unwinding | Rejected | Completed | Cancelled | Refused {
    predicate Live() {
      Queued? || Granted? || Running? || Unwinding? || Rejected?
    }

    predicate OwesRelease() {
      Granted? || Running? || Unwinding?
    }
  }

  /** Who keeps a session busy: a submission still being classified, or a run. */
  datatype Holder = Submission | Holding(run: RunId)

  /** `active`, `queue`, `reserved` and `shuttingDown` are the kernel's fields and
      `sessionOf` its run rows. `stage` and `holder` say where the pending
      asynchronous calls stand; the rest is history. */
  datatype Slots = Slots(
    active: map<RunId, SessionId>,
    queue: seq<RunId>,
    reserved: set<SessionId>,
    shuttingDown: bool,
    sessionOf: map<RunId, SessionId>,
    stage: map<RunId, Stage>,
    holder: map<SessionId, Holder>,
    arrivals: seq<RunId>,
    woken: seq<RunId>,
    dropped: set<RunId>,
    released: seq<RunId>)

  const EMPTY := Slots(map[], [], {}, false, map[], map[], map[], [], [], {}, [])

  predicate InStage(s: Slots, r: RunId, stage: Stage) {
    r in s.stage && s.stage[r] == stage
  }

  predicate Live(s: Slots, r: RunId) {
    r in s.stage && s.stage[r].Live()
  }

  predicate OwesRelease(s: Slots, r: RunId) {
    r in s.stage && s.stage[r].OwesRelease()
  }

  /** `hasActiveRunForSession`. */
  predicate Busy(s: Slots, session: SessionId) {
    || session in s.reserved
    || (exists r :: r in s.active && s.active[r] == session)
    || (exists i :: 0 <= i < |s.queue| && s.queue[i] in s.sessionOf && s.sessionOf[s.queue[i]] == session)
  }

  // ----- the steps

  /** `submit` up to its first await: claim the session, or refuse. */
  function Begin(s: Slots, session: SessionId): Slots {
    if s.shuttingDown || Busy(s, session) then s
    else s.(reserved := s.reserved + {session}, holder := s.holder[session := Submission])
  }

  /** `submit` fails before the run row exists. */
  function Fail(s: Slots, session: SessionId): Slots {
    s.(reserved := s.reserved - {session}, holder := s.holder - {session})
  }

  /** `submit` fails after the run row exists. */
  function Refuse(s: Slots, session: SessionId, r: RunId): Slots {
    s.(reserved := s.reserved - {session}, holder := s.holder - {session},
       sessionOf := s.sessionOf[r := session], stage := s.stage[r := Refused])
  }

  /** `acquireSlot` finds a slot free. */
  function Grant(s: Slots, session: SessionId, r: RunId): Slots {
    s.(holder := s.holder[session := Holding(r)],
       sessionOf := s.sessionOf[r := session], stage := s.stage[r := Granted])
  }

  /** `acquireSlot` queues the run. */
  function Enqueue(s: Slots, session: SessionId, r: RunId): Slots {
    s.(holder := s.holder[session := Holding(r)],
       sessionOf := s.sessionOf[r := session], stage := s.stage[r := Queued],
       queue := s.queue + [r], arrivals := s.arrivals + [r])
  }

  /** The rest of `submit`, and `schedule` up to `acquireSlot`'s answer. */
  function Admit(s: Slots, session: SessionId, r: RunId, cap: nat): Slots {
    if |s.active| < cap then Grant(s, session, r) else Enqueue(s, session, r)
  }

  /** `execute` up to its await. */
  function Start(s: Slots, r: RunId): Slots
    requires r in s.sessionOf
  {
    s.(active := s.active[r := s.sessionOf[r]], stage := s.stage[r := Running])
  }

  /** `execute`'s finally. */
  function Finish(s: Slots, r: RunId): Slots {
    s.(active := s.active - {r}, stage := s.stage[r := Unwinding])
  }

  function Leave(s: Slots, r: RunId, stage: Stage): Slots
    requires r in s.sessionOf
  {
    s.(reserved := s.reserved - {s.sessionOf[r]},
       holder := s.holder - {s.sessionOf[r]},
       stage := s.stage[r := stage])
  }

  /** `schedule`'s finally: free the session and wake the head of the queue. */
  function Release(s: Slots, r: RunId): Slots
    requires r in s.sessionOf
  {
    var left := Leave(s, r, Completed).(released := s.released + [r]);
    if s.queue == [] then left
    else
      var head := s.queue[0];
      left.(queue := s.queue[1..], woken := s.woken + [head], stage := left.stage[head := Granted])
  }

  /** The first queued run of a session, or the queue's length. */
  function FirstOf(s: Slots, session: SessionId): (i: nat)
    ensures i <= |s.queue|
    ensures i < |s.queue| ==> s.queue[i] in s.sessionOf && s.sessionOf[s.queue[i]] == session
    ensures forall j :: 0 <= j < i ==> !(s.queue[j] in s.sessionOf && s.sessionOf[s.queue[j]] == session)
  {
    FirstFrom(s, session, 0)
  }

  function FirstFrom(s: Slots, session: SessionId, from: nat): (i: nat)
    requires from <= |s.queue|
    ensures from <= i <= |s.queue|
    ensures i < |s.queue| ==> s.queue[i] in s.sessionOf && s.sessionOf[s.queue[i]] == session
    ensures forall j :: from <= j < i ==> !(s.queue[j] in s.sessionOf && s.sessionOf[s.queue[j]] == session)
    decreases |s.queue| - from
  {
    if from == |s.queue| || (s.queue[from] in s.sessionOf && s.sessionOf[s.queue[from]] == session) then from
    else FirstFrom(s, session, from + 1)
  }

  predicate HasActive(s: Slots, session: SessionId) {
    exists r :: r in s.active && s.active[r] == session
  }

  /** `interrupt`: an active run is only asked to stop; a queued one is rejected. */
  function Interrupt(s: Slots, session: SessionId): Slots {
    var i := FirstOf(s, session);
    if HasActive(s, session) || i == |s.queue| then s
    else
      var r := s.queue[i];
      s.(queue := s.queue[..i] + s.queue[i + 1..], dropped := s.dropped + {r}, stage := s.stage[r := Rejected])
  }

  /** `schedule`'s catch, for a run rejected from the queue. */
  function Clear(s: Slots, r: RunId): Slots
    requires r in s.sessionOf
  {
    Leave(s, r, Cancelled)
  }

  /** `shutdown` up to its await: the whole queue is rejected. */
  function Shutdown(s: Slots): Slots {
    s.(shuttingDown := true, queue := [],
       dropped := s.dropped + (set r | r in s.queue),
       stage := map r | r in s.stage :: if r in s.queue then Rejected else s.stage[r])
  }

  // ----- the invariant

  predicate Distinct(s: seq<RunId>) {
    forall i, j :: 0 <= i < j < |s| ==> s[i] != s[j]
  }

  /** A list without the dropped runs. */
  function Without(s: seq<RunId>, dropped: set<RunId>): seq<RunId> {
    if s == [] then []
    else (if s[0] in dropped then [] else [s[0]]) + Without(s[1..], dropped)
  }

  /** Fields, rows and the pending calls agree. */
  ghost predicate FieldsMatch(s: Slots) {
    && s.stage.Keys == s.sessionOf.Keys
    && (forall r :: r in s.active <==> InStage(s, r, Running))
    && (forall r :: r in s.active && r in s.sessionOf ==> s.active[r] == s.sessionOf[r])
    && (forall r :: r in s.queue <==> InStage(s, r, Queued))
    && Distinct(s.queue)
  }

  /** `reserved` is exactly the sessions held, each by one submission or one live run. */
  ghost predicate Reserved(s: Slots) {
    && s.reserved == s.holder.Keys
    && (forall r :: Live(s, r) ==> r in s.sessionOf && s.sessionOf[r] in s.holder && s.holder[s.sessionOf[r]] == Holding(r))
    && (forall t :: t in s.holder && s.holder[t].Holding? ==> Live(s, s.holder[t].run))
    && (forall t :: t in s.holder && s.holder[t].Holding? && s.holder[t].run in s.sessionOf ==>
          s.sessionOf[s.holder[t].run] == t)
  }

  ghost predicate WakeUpPending(s: Slots) {
    s.queue != [] ==> exists r :: OwesRelease(s, r)
  }

  /** What queued and was not dropped has been woken or still waits, in order of arrival. */
  ghost predicate InOrder(s: Slots) {
    && Without(s.arrivals, s.dropped) == s.woken + s.queue
    && (forall r :: r in s.dropped <==> InStage(s, r, Rejected) || InStage(s, r, Cancelled))
    && (forall r :: r in s.arrivals || r in s.woken ==> r in s.stage)
    && (forall r :: r in s.woken ==> r !in s.queue)
  }

  ghost predicate ReleasedOnce(s: Slots) {
    && Distinct(s.released)
    && (forall r :: r in s.released <==> InStage(s, r, Completed))
  }

  ghost predicate Inv(s: Slots) {
    FieldsMatch(s) && Reserved(s) && WakeUpPending(s) && InOrder(s) && ReleasedOnce(s)
  }

  lemma EmptyHolds()
    ensures Inv(EMPTY)
  {
  }

  /** `session` has a submission between its claim and its run row. */
  predicate Submitting(s: Slots, session: SessionId) {
    session in s.holder && s.holder[session] == Submission
  }

  predicate Fresh(s: Slots, r: RunId) {
    r !in s.stage && r !in s.sessionOf
  }

  // ----- lists of runs

  lemma {:induction false} WithoutAppend(a: seq<RunId>, b: seq<RunId>, dropped: set<RunId>)
    ensures Without(a + b, dropped) == Without(a, dropped) + Without(b, dropped)
  {
    if a == [] {
      assert a + b == b;
    } else {
      assert (a + b)[1..] == a[1..] + b;
      WithoutAppend(a[1..], b, dropped);
    }
  }

  /** Dropping more from a list is dropping from what was left of it. */
  lemma {:induction false} WithoutTwice(a: seq<RunId>, first: set<RunId>, more: set<RunId>)
    ensures Without(a, first + more) == Without(Without(a, first), more)
  {
    if a != [] {
      WithoutTwice(a[1..], first, more);
      var head := if a[0] in first then [] else [a[0]];
      WithoutAppend(head, Without(a[1..], first), more);
    }
  }

  lemma {:induction false} WithoutNone(a: seq<RunId>, dropped: set<RunId>)
    requires forall r :: r in a ==> r !in dropped
    ensures Without(a, dropped) == a
  {
    if a != [] {
      WithoutNone(a[1..], dropped);
    }
  }

  lemma {:induction false} WithoutAll(a: seq<RunId>, dropped: set<RunId>)
    requires forall r :: r in a ==> r in dropped
    ensures Without(a, dropped) == []
  {
    if a != [] {
      WithoutAll(a[1..], dropped);
    }
  }

  /** Dropping the middle of a list. */
  lemma WithoutMiddle(a: seq<RunId>, b: seq<RunId>, c: seq<RunId>, gone: set<RunId>)
    requires forall r :: r in a || r in c ==> r !in gone
    requires forall r :: r in b ==> r in gone
    ensures Without(a + b + c, gone) == a + c
  {
    hide Without;
    WithoutAppend(a + b, c, gone);
    WithoutAppend(a, b, gone);
    WithoutNone(a, gone);
    WithoutAll(b, gone);
    WithoutNone(c, gone);
    assert a + [] == a;
  }

  lemma RemoveOne(q: seq<RunId>, i: nat)
    requires i < |q| && Distinct(q)
    ensures q == q[..i] + [q[i]] + q[i + 1..]
    ensures Distinct(q[..i] + q[i + 1..])
    ensures q[i] !in q[..i] && q[i] !in q[i + 1..]
  {
  }

  lemma RemoveOneMembers(q: seq<RunId>, i: nat)
    requires i < |q| && Distinct(q)
    ensures forall r :: r in q[..i] + q[i + 1..] <==> r in q && r != q[i]
  {
    RemoveOne(q, i);
    forall r ensures r in q[..i] + q[i + 1..] <==> r in q && r != q[i] {
      assert r in q <==> r in q[..i] + [q[i]] + q[i + 1..];
    }
  }

  // ----- every step keeps the invariant

  /** The stages of all runs but `r` are the same. */
  ghost predicate OnlyMoves(s: Slots, t: Slots, r: RunId) {
    forall q, g :: q != r ==> (InStage(s, q, g) <==> InStage(t, q, g))
  }

  lemma StillOwed(s: Slots, t: Slots, r: RunId)
    requires OnlyMoves(s, t, r)
    ensures forall q :: q != r && OwesRelease(s, q) ==> OwesRelease(t, q)
    ensures forall q :: q != r ==> (Live(s, q) <==> Live(t, q))
    ensures forall q :: q != r ==> (q in s.stage <==> q in t.stage)
  {
    forall q | q != r
      ensures (Live(s, q) <==> Live(t, q)) && (q in s.stage <==> q in t.stage) && (OwesRelease(s, q) ==> OwesRelease(t, q))
    {
      assert q in s.stage ==> InStage(s, q, s.stage[q]) && InStage(t, q, s.stage[q]);
      assert q in t.stage ==> InStage(t, q, t.stage[q]) && InStage(s, q, t.stage[q]);
    }
  }

  lemma BeginKeeps(s: Slots, session: SessionId)
    requires Inv(s)
    ensures Inv(Begin(s, session))
  {
    assert forall r :: OwesRelease(s, r) ==> OwesRelease(Begin(s, session), r);
  }

  lemma FailKeeps(s: Slots, session: SessionId)
    requires Inv(s) && Submitting(s, session)
    ensures Inv(Fail(s, session))
  {
    assert forall r :: OwesRelease(s, r) ==> OwesRelease(Fail(s, session), r);
  }

  lemma NewRunIsNowhere(s: Slots, r: RunId)
    requires Inv(s) && Fresh(s, r)
    ensures r !in s.active && r !in s.queue && r !in s.arrivals && r !in s.dropped && r !in s.released && r !in s.woken
  {
    assert !InStage(s, r, Completed) && !InStage(s, r, Running) && !InStage(s, r, Queued);
    assert !InStage(s, r, Rejected) && !InStage(s, r, Cancelled);
  }

  lemma RefuseKeepsReserved(s: Slots, session: SessionId, r: RunId)
    requires Reserved(s) && Submitting(s, session) && Fresh(s, r)
    ensures Reserved(Refuse(s, session, r))
  {
    var t := Refuse(s, session, r);
    assert OnlyMoves(s, t, r);
    StillOwed(s, t, r);
  }

  /** A run that is in no list moves without touching them. */
  lemma ListsUntouched(s: Slots, t: Slots, r: RunId)
    requires InOrder(s) && ReleasedOnce(s) && OnlyMoves(s, t, r) && Fresh(s, r)
    requires t.arrivals == s.arrivals && t.dropped == s.dropped && t.woken == s.woken && t.queue == s.queue
    requires t.released == s.released
    requires r !in s.arrivals && r !in s.dropped && r !in s.woken && r !in s.released
    requires InStage(t, r, Refused) || InStage(t, r, Granted)
    ensures InOrder(t) && ReleasedOnce(t)
  {
    StillOwed(s, t, r);
  }

  lemma FieldsUntouched(s: Slots, t: Slots, session: SessionId, r: RunId, stage: Stage)
    requires FieldsMatch(s) && Fresh(s, r) && r !in s.active && r !in s.queue && (stage == Refused || stage == Granted)
    requires t.active == s.active && t.queue == s.queue
    requires t.sessionOf == s.sessionOf[r := session] && t.stage == s.stage[r := stage]
    ensures FieldsMatch(t) && OnlyMoves(s, t, r)
  {
  }

  lemma RefuseKeeps(s: Slots, session: SessionId, r: RunId)
    requires Inv(s) && Submitting(s, session) && Fresh(s, r)
    ensures Inv(Refuse(s, session, r))
  {
    hide FieldsMatch;
    hide Reserved;
    hide InOrder;
    hide ReleasedOnce;
    var t := Refuse(s, session, r);
    NewRunIsNowhere(s, r);
    RefuseKeepsReserved(s, session, r);
    FieldsUntouched(s, t, session, r, Refused);
    ListsUntouched(s, t, r);
    StillOwed(s, t, r);
  }

  lemma AppendMembers(q: seq<RunId>, r: RunId)
    ensures forall x :: x in q + [r] <==> x in q || x == r
    ensures Distinct(q) && r !in q ==> Distinct(q + [r])
  {
  }

  lemma GrantKeepsReserved(s: Slots, session: SessionId, r: RunId)
    requires Reserved(s) && Submitting(s, session) && Fresh(s, r)
    ensures Reserved(Grant(s, session, r))
  {
    var t := Grant(s, session, r);
    assert OnlyMoves(s, t, r);
    StillOwed(s, t, r);
  }

  lemma GrantKeeps(s: Slots, session: SessionId, r: RunId)
    requires Inv(s) && Submitting(s, session) && Fresh(s, r)
    ensures Inv(Grant(s, session, r))
  {
    hide FieldsMatch;
    hide Reserved;
    hide InOrder;
    hide ReleasedOnce;
    var t := Grant(s, session, r);
    NewRunIsNowhere(s, r);
    GrantKeepsReserved(s, session, r);
    FieldsUntouched(s, t, session, r, Granted);
    ListsUntouched(s, t, r);
    assert OwesRelease(t, r);
  }

  lemma EnqueueKeepsFields(s: Slots, session: SessionId, r: RunId)
    requires FieldsMatch(s) && Fresh(s, r) && r !in s.queue && r !in s.active
    ensures FieldsMatch(Enqueue(s, session, r))
  {
    var t := Enqueue(s, session, r);
    assert OnlyMoves(s, t, r);
    AppendMembers(s.queue, r);
    forall q ensures (q in t.queue <==> InStage(t, q, Queued)) && (q in t.active <==> InStage(t, q, Running)) {
      if q != r {
        assert InStage(s, q, Queued) <==> InStage(t, q, Queued);
        assert InStage(s, q, Running) <==> InStage(t, q, Running);
      }
    }
  }

  lemma EnqueueKeepsReserved(s: Slots, session: SessionId, r: RunId)
    requires Reserved(s) && Submitting(s, session) && Fresh(s, r)
    ensures Reserved(Enqueue(s, session, r))
  {
    var t := Enqueue(s, session, r);
    assert OnlyMoves(s, t, r);
    StillOwed(s, t, r);
  }

  lemma EnqueueKeepsOrder(s: Slots, session: SessionId, r: RunId)
    requires InOrder(s) && ReleasedOnce(s) && Fresh(s, r)
    requires r !in s.dropped && r !in s.released && r !in s.woken
    ensures InOrder(Enqueue(s, session, r)) && ReleasedOnce(Enqueue(s, session, r))
  {
    var t := Enqueue(s, session, r);
    assert OnlyMoves(s, t, r);
    AppendMembers(s.queue, r);
    AppendMembers(s.arrivals, r);
    WithoutAppend(s.arrivals, [r], s.dropped);
    assert s.woken + s.queue + [r] == s.woken + (s.queue + [r]);
  }

  /** A run queues only behind one that is active, and so owes a release. */
  lemma EnqueueKeepsWakeUp(s: Slots, session: SessionId, r: RunId)
    requires FieldsMatch(s) && Fresh(s, r) && s.active != map[]
    ensures WakeUpPending(Enqueue(s, session, r))
  {
    var q :| q in s.active;
    assert InStage(s, q, Running);
    assert OwesRelease(Enqueue(s, session, r), q);
  }

  lemma AdmitKeeps(s: Slots, session: SessionId, r: RunId, cap: nat)
    requires Inv(s) && Submitting(s, session) && Fresh(s, r) && cap >= 1
    ensures Inv(Admit(s, session, r, cap))
  {
    NewRunIsNowhere(s, r);
    if |s.active| < cap {
      GrantKeeps(s, session, r);
    } else {
      assert s.active != map[];
      hide FieldsMatch;
      hide Reserved;
      hide InOrder;
      hide ReleasedOnce;
      hide WakeUpPending;
      hide Enqueue;
      EnqueueKeepsFields(s, session, r);
      EnqueueKeepsReserved(s, session, r);
      EnqueueKeepsOrder(s, session, r);
      EnqueueKeepsWakeUp(s, session, r);
    }
  }

  lemma StartKeeps(s: Slots, r: RunId)
    requires Inv(s) && InStage(s, r, Granted)
    ensures Inv(Start(s, r))
  {
    var t := Start(s, r);
    assert OnlyMoves(s, t, r);
    assert OwesRelease(t, r);
  }

  lemma FinishKeeps(s: Slots, r: RunId)
    requires Inv(s) && InStage(s, r, Running)
    ensures Inv(Finish(s, r))
  {
    var t := Finish(s, r);
    assert OnlyMoves(s, t, r);
    StillOwed(s, t, r);
    FinishKeepsFields(s, r);
    FinishKeepsLists(s, r);
    hide FieldsMatch;
    hide InOrder;
    hide ReleasedOnce;
    assert OwesRelease(t, r);
  }

  lemma FinishKeepsFields(s: Slots, r: RunId)
    requires FieldsMatch(s) && InStage(s, r, Running)
    ensures FieldsMatch(Finish(s, r))
  {
    assert OnlyMoves(s, Finish(s, r), r);
  }

  lemma FinishKeepsLists(s: Slots, r: RunId)
    requires InOrder(s) && ReleasedOnce(s) && InStage(s, r, Running)
    ensures InOrder(Finish(s, r)) && ReleasedOnce(Finish(s, r))
  {
    assert OnlyMoves(s, Finish(s, r), r);
  }

  lemma LeaveKeepsReserved(s: Slots, r: RunId, stage: Stage)
    requires FieldsMatch(s) && Reserved(s) && Live(s, r) && !stage.Live()
    ensures Reserved(Leave(s, r, stage))
  {
    var t := Leave(s, r, stage);
    assert OnlyMoves(s, t, r);
    StillOwed(s, t, r);
  }

  lemma WakeKeepsReserved(s: Slots, t: Slots, head: RunId)
    requires Reserved(s) && Live(s, head) && Live(t, head) && OnlyMoves(s, t, head)
    requires s.reserved == t.reserved && s.holder == t.holder && s.sessionOf == t.sessionOf
    ensures Reserved(t)
  {
    StillOwed(s, t, head);
  }

  lemma ReleaseKeeps(s: Slots, r: RunId)
    requires Inv(s) && InStage(s, r, Unwinding)
    ensures Inv(Release(s, r))
  {
    var left := Leave(s, r, Completed).(released := s.released + [r]);
    LeaveKeepsReserved(s, r, Completed);
    LeaveKeepsRest(s, r);
    hide FieldsMatch;
    hide Reserved;
    hide InOrder;
    hide ReleasedOnce;
    if s.queue != [] {
      WakeKeeps(left, Release(s, r));
    } else {
      assert left == Release(s, r);
    }
  }

  lemma LeaveKeepsRest(s: Slots, r: RunId)
    requires FieldsMatch(s) && InOrder(s) && ReleasedOnce(s) && InStage(s, r, Unwinding)
    ensures var left := Leave(s, r, Completed).(released := s.released + [r]);
            FieldsMatch(left) && InOrder(left) && ReleasedOnce(left)
  {
    var left := Leave(s, r, Completed).(released := s.released + [r]);
    hide Without;
    assert OnlyMoves(s, left, r);
    assert r !in s.queue by { assert !InStage(s, r, Queued); }
    assert r !in s.released by { assert !InStage(s, r, Completed); }
    AppendMembers(s.released, r);
  }

  lemma DropsFromQueue(s: Slots, t: Slots, i: nat)
    requires FieldsMatch(s) && i < |s.queue| && OnlyMoves(s, t, s.queue[i])
    requires t.queue == s.queue[..i] + s.queue[i + 1..]
    requires s.queue[i] in t.stage && !t.stage[s.queue[i]].Queued? && !t.stage[s.queue[i]].Running?
    requires t.active == s.active && t.sessionOf == s.sessionOf && t.stage.Keys == s.stage.Keys
    ensures FieldsMatch(t)
  {
    var r := s.queue[i];
    assert InStage(s, r, Queued);
    RemoveOne(s.queue, i);
    RemoveOneMembers(s.queue, i);
    forall q ensures (q in t.queue <==> InStage(t, q, Queued)) && (q in t.active <==> InStage(t, q, Running)) {
      if q != r {
        assert InStage(s, q, Queued) <==> InStage(t, q, Queued);
        assert InStage(s, q, Running) <==> InStage(t, q, Running);
      }
    }
  }

  /** Waking the head of the queue, from a state that may have no release left. */
  lemma WakeKeeps(s: Slots, t: Slots)
    requires FieldsMatch(s) && Reserved(s) && InOrder(s) && ReleasedOnce(s) && s.queue != []
    requires t == s.(queue := s.queue[1..], woken := s.woken + [s.queue[0]], stage := s.stage[s.queue[0] := Granted])
    ensures Inv(t)
  {
    var head := s.queue[0];
    assert head in s.queue && InStage(s, head, Queued);
    assert OnlyMoves(s, t, head);
    assert t.queue == s.queue[..0] + s.queue[1..];
    DropsFromQueue(s, t, 0);
    WakeKeepsReserved(s, t, head);
    assert OwesRelease(t, head);
    WakeKeepsOrder(s, t);
  }

  lemma WakeKeepsOrder(s: Slots, t: Slots)
    requires InOrder(s) && ReleasedOnce(s) && s.queue != [] && Distinct(s.queue) && InStage(s, s.queue[0], Queued)
    requires t == s.(queue := s.queue[1..], woken := s.woken + [s.queue[0]], stage := s.stage[s.queue[0] := Granted])
    ensures InOrder(t) && ReleasedOnce(t)
  {
    var head := s.queue[0];
    assert OnlyMoves(s, t, head);
    RemoveOne(s.queue, 0);
    AppendMembers(s.woken, head);
    assert forall r :: r in t.queue ==> r in s.queue;
    assert s.woken + s.queue == t.woken + t.queue;
  }

  lemma ClearKeeps(s: Slots, r: RunId)
    requires Inv(s) && InStage(s, r, Rejected)
    ensures Inv(Clear(s, r))
  {
    var t := Clear(s, r);
    assert OnlyMoves(s, t, r);
    LeaveKeepsReserved(s, r, Cancelled);
    StillOwed(s, t, r);
  }

  lemma InterruptKeeps(s: Slots, session: SessionId)
    requires Inv(s)
    ensures Inv(Interrupt(s, session))
  {
    var t := Interrupt(s, session);
    if t != s {
      var i := FirstOf(s, session);
      var r := s.queue[i];
      assert r in s.queue && InStage(s, r, Queued);
      assert OnlyMoves(s, t, r);
      StillOwed(s, t, r);
      DropsFromQueue(s, t, i);
      WakeKeepsReserved(s, t, r);
      DropKeepsOrder(s, t, i);
    }
  }

  lemma DropKeepsOrder(s: Slots, t: Slots, i: nat)
    requires InOrder(s) && ReleasedOnce(s) && Distinct(s.queue)
    requires i < |s.queue| && InStage(s, s.queue[i], Queued)
    requires t == s.(queue := s.queue[..i] + s.queue[i + 1..], dropped := s.dropped + {s.queue[i]},
                     stage := s.stage[s.queue[i] := Rejected])
    ensures InOrder(t) && ReleasedOnce(t)
  {
    var r := s.queue[i];
    hide Without;
    assert OnlyMoves(s, t, r);
    RemoveOne(s.queue, i);
    RemoveOneMembers(s.queue, i);
    WithoutTwice(s.arrivals, s.dropped, {r});
    assert r !in s.woken by { assert r in s.queue; }
    WithoutOne(s.woken, s.queue, i);
  }

  lemma WithoutOne(woken: seq<RunId>, q: seq<RunId>, i: nat)
    requires i < |q| && Distinct(q) && q[i] !in woken
    ensures Without(woken + q, {q[i]}) == woken + (q[..i] + q[i + 1..])
  {
    var before, after := q[..i], q[i + 1..];
    RemoveOne(q, i);
    WithoutMiddle(woken + before, [q[i]], after, {q[i]});
    hide Without;
    assert woken + q == woken + before + [q[i]] + after;
    assert woken + before + after == woken + (before + after);
  }

  lemma ShutdownKeepsOrder(s: Slots)
    requires InOrder(s) && ReleasedOnce(s) && FieldsMatch(s)
    ensures InOrder(Shutdown(s)) && ReleasedOnce(Shutdown(s))
  {
    var t := Shutdown(s);
    var gone := set r | r in s.queue;
    forall q, g | q !in s.queue ensures InStage(s, q, g) <==> InStage(t, q, g) {
    }
    assert forall q :: q in s.queue ==> InStage(s, q, Queued) && InStage(t, q, Rejected);
    WithoutTwice(s.arrivals, s.dropped, gone);
    WithoutMiddle(s.woken, s.queue, [], gone);
    assert s.woken + s.queue + [] == s.woken + s.queue;
  }

  lemma ShutdownKeeps(s: Slots)
    requires Inv(s)
    ensures Inv(Shutdown(s))
  {
    var t := Shutdown(s);
    ShutdownKeepsOrder(s);
    hide InOrder;
    hide ReleasedOnce;
    ShutdownKeepsFields(s);
    hide FieldsMatch;
    ShutdownKeepsReserved(s);
    hide Reserved;
  }

  lemma ShutdownKeepsFields(s: Slots)
    requires FieldsMatch(s)
    ensures FieldsMatch(Shutdown(s))
    ensures forall q :: Live(s, q) <==> Live(Shutdown(s), q)
  {
    var t := Shutdown(s);
    forall q ensures (Live(s, q) <==> Live(t, q)) && !InStage(t, q, Queued) && (InStage(s, q, Running) <==> InStage(t, q, Running)) {
      assert q in s.queue <==> InStage(s, q, Queued);
    }
  }

  lemma ShutdownKeepsReserved(s: Slots)
    requires Reserved(s)
    requires forall q :: Live(s, q) <==> Live(Shutdown(s), q)
    ensures Reserved(Shutdown(s))
  {
  }
}
