/** The kernel object of apps/api/src/kernel/kernel.ts: its collections, and the
    code that runs between two awaits as one method each. */
module KernelObject {
  import opened SlotQueue
  import opened DelegationDesk
  import opened RunLifecycle
  import opened StepEffects

  datatype Answer = Nothing | Handed(text: string)

  class Kernel {
    var active: map<RunId, SessionId>
    var queue: seq<RunId>
    var reserved: set<SessionId>
    var shuttingDown: bool
    var rows: map<RunId, SessionId>
    var awaitedRuns: set<RunId>
    var delegationWaiters: set<RunId>
    var delegationSettled: map<RunId, Stash>
    var delegationAbandoned: set<RunId>

    /** The state of the lifecycle model, history included. */
    ghost var model: State

    ghost predicate SlotsTied()
      reads this
    {
      && active == model.slots.active && queue == model.slots.queue && reserved == model.slots.reserved
      && shuttingDown == model.slots.shuttingDown && rows == model.slots.sessionOf
    }

    ghost predicate DeskTied()
      reads this
    {
      && awaitedRuns == model.desk.awaited && delegationWaiters == model.desk.waiters
      && delegationSettled == model.desk.settled && delegationAbandoned == model.desk.abandoned
    }

    ghost predicate Valid()
      reads this
    {
      SlotsTied() && DeskTied() && Sound(model)
    }

    constructor ()
      ensures Valid() && model == INITIAL
    {
      active, queue, reserved, shuttingDown, rows := map[], [], {}, false, map[];
      awaitedRuns, delegationWaiters, delegationSettled, delegationAbandoned := {}, {}, map[], {};
      model := INITIAL;
      new;
      InitialIsSound();
    }

    /** Three tests in turn, and by the invariant the first decides. */
    method HasActiveRunForSession(session: SessionId) returns (busy: bool)
      requires Valid()
      ensures busy == Busy(model.slots, session) == (session in reserved)
    {
      SoundReservation(model, session);
      if session in reserved {
        return true;
      }
      var entries := active.Keys;
      while entries != {}
        invariant entries <= active.Keys
        invariant forall r :: r in active && active[r] == session ==> r in entries
      {
        var r :| r in entries;
        if active[r] == session {
          return true;
        }
        entries := entries - {r};
      }
      var i := FindQueued(session);
      return i < |queue|;
    }

    /** `queue.findIndex` by the session of the queued run's row. */
    method FindQueued(session: SessionId) returns (i: nat)
      requires SlotsTied()
      ensures i == FirstOf(model.slots, session)
    {
      i := 0;
      while i < |queue| && !(queue[i] in rows && rows[queue[i]] == session)
        invariant i <= |queue|
        invariant FirstFrom(model.slots, session, 0) == FirstFrom(model.slots, session, i)
      {
        i := i + 1;
      }
    }

    /** `submit` up to the classifier: whether the session was claimed. */
    method BeginSubmit(session: SessionId) returns (claimed: bool)
      requires Valid()
      modifies this`reserved, this`model
      ensures Valid() && model == Next(old(model), RunLifecycle.BeginSubmit(session))
      ensures reserved == old(reserved) + if claimed then {session} else {}
      ensures claimed <==> !shuttingDown && session !in old(reserved)
    {
      hide Sound;
      StepStaysSound(model, RunLifecycle.BeginSubmit(session));
      if shuttingDown {
        return false;
      }
      var busy := HasActiveRunForSession(session);
      if busy {
        return false;
      }
      reserved := reserved + {session};
      model := Next(model, RunLifecycle.BeginSubmit(session));
      return true;
    }

    /** `submit` fails in the classifier, the policy or the row's creation. */
    method FailSubmit(session: SessionId)
      requires Valid() && Enabled(model, RunLifecycle.FailSubmit(session))
      modifies this`reserved, this`model
      ensures Valid() && model == Next(old(model), RunLifecycle.FailSubmit(session))
      ensures reserved == old(reserved) - {session}
    {
      hide Sound;
      StepStaysSound(model, RunLifecycle.FailSubmit(session));
      reserved := reserved - {session};
      model := Next(model, RunLifecycle.FailSubmit(session));
    }

    /** `submit` creates the row, marks it awaited and then fails, as when its files do not bind. */
    method RefuseSubmit(session: SessionId, run: RunId, willWait: bool)
      requires Valid() && Enabled(model, RunLifecycle.RefuseSubmit(session, run, willWait))
      modifies this`reserved, this`rows, this`awaitedRuns, this`model
      ensures Valid() && model == Next(old(model), RunLifecycle.RefuseSubmit(session, run, willWait))
      ensures reserved == old(reserved) - {session} && rows == old(rows)[run := session]
      ensures awaitedRuns == old(awaitedRuns) + if willWait then {run} else {}
    {
      hide Sound;
      StepStaysSound(model, RunLifecycle.RefuseSubmit(session, run, willWait));
      rows := rows[run := session];
      if willWait {
        awaitedRuns := awaitedRuns + {run};
      }
      reserved := reserved - {session};
      model := Next(model, RunLifecycle.RefuseSubmit(session, run, willWait));
    }

    /** The rest of `submit`, into `acquireSlot`: whether a slot was granted at once. */
    method AdmitRun(session: SessionId, run: RunId, willWait: bool, maxConcurrentRuns: nat) returns (granted: bool)
      requires Valid() && Enabled(model, RunLifecycle.AdmitRun(session, run, willWait, maxConcurrentRuns))
      modifies this`queue, this`rows, this`awaitedRuns, this`model
      ensures Valid() && model == Next(old(model), RunLifecycle.AdmitRun(session, run, willWait, maxConcurrentRuns))
      ensures rows == old(rows)[run := session] && awaitedRuns == old(awaitedRuns) + if willWait then {run} else {}
      ensures granted <==> |active| < maxConcurrentRuns
      ensures queue == if granted then old(queue) else old(queue) + [run]
    {
      hide Sound;
      hide Admit;
      StepStaysSound(model, RunLifecycle.AdmitRun(session, run, willWait, maxConcurrentRuns));
      AdmitFields(model.slots, session, run, maxConcurrentRuns);
      rows := rows[run := session];
      if willWait {
        awaitedRuns := awaitedRuns + {run};
      }
      granted := |active| < maxConcurrentRuns;
      if !granted {
        queue := queue + [run];
      }
      model := Next(model, RunLifecycle.AdmitRun(session, run, willWait, maxConcurrentRuns));
    }

    /** `execute` up to its await. */
    method StartRun(run: RunId)
      requires Valid() && Enabled(model, RunLifecycle.StartRun(run))
      modifies this`active, this`model
      ensures Valid() && model == Next(old(model), RunLifecycle.StartRun(run))
      ensures run in rows && active == old(active)[run := rows[run]]
    {
      hide Sound;
      StepStaysSound(model, RunLifecycle.StartRun(run));
      active := active[run := rows[run]];
      model := Next(model, RunLifecycle.StartRun(run));
    }

    /** The stash near the end of `runToCompletion`. */
    method StashRun(run: RunId, finalText: string)
      requires Valid() && Enabled(model, RunLifecycle.StashRun(run, finalText))
      modifies this`delegationSettled, this`model
      ensures Valid() && model == Next(old(model), RunLifecycle.StashRun(run, finalText))
      ensures delegationSettled == if run in awaitedRuns then old(delegationSettled)[run := Stash(finalText, false)] else old(delegationSettled)
    {
      hide Sound;
      StepStaysSound(model, RunLifecycle.StashRun(run, finalText));
      if run in awaitedRuns {
        delegationSettled := delegationSettled[run := Stash(finalText, false)];
      }
      model := Next(model, RunLifecycle.StashRun(run, finalText));
    }

    /** The end of an awaited run: whoever waits is answered, or the stash is there for
        the asking, unless the wait was given up. */
    method SettleDelegation(run: RunId) returns (answer: Answer)
      requires DeskTied()
      modifies this`awaitedRuns, this`delegationWaiters, this`delegationSettled, this`delegationAbandoned
      ensures var desk := Settle(model.desk, run);
              && awaitedRuns == desk.awaited && delegationWaiters == desk.waiters
              && delegationSettled == desk.settled && delegationAbandoned == desk.abandoned
              && AnswersTo(desk, run) == AnswersTo(model.desk, run) + if answer.Handed? then [answer.text] else []
    {
      if run !in awaitedRuns {
        return Nothing;
      }
      awaitedRuns := awaitedRuns - {run};
      if run in delegationAbandoned {
        delegationAbandoned := delegationAbandoned - {run};
        delegationSettled := delegationSettled - {run};
        return Nothing;
      }
      if run !in delegationSettled {
        delegationSettled := delegationSettled[run := Stash("", true)];
      }
      delegationSettled := delegationSettled[run := delegationSettled[run].(ready := true)];
      if run in delegationWaiters {
        delegationWaiters := delegationWaiters - {run};
        answer := Handed(delegationSettled[run].text);
        delegationSettled := delegationSettled - {run};
      } else {
        answer := Nothing;
      }
    }

    /** `execute`'s finally. */
    method FinishRun(run: RunId) returns (answer: Answer)
      requires Valid() && Enabled(model, RunLifecycle.FinishRun(run))
      modifies this`active, this`awaitedRuns, this`delegationWaiters, this`delegationSettled, this`delegationAbandoned, this`model
      ensures Valid() && model == Next(old(model), RunLifecycle.FinishRun(run))
      ensures active == old(active) - {run} && awaitedRuns == old(awaitedRuns) - {run}
      ensures AnswersTo(model.desk, run) == AnswersTo(old(model).desk, run) + if answer.Handed? then [answer.text] else []
    {
      hide Settle;
      hide AnswersTo;
      hide Sound;
      StepStaysSound(model, RunLifecycle.FinishRun(run));
      SettleAwaited(model.desk, run);
      active := active - {run};
      answer := SettleDelegation(run);
      model := Next(model, RunLifecycle.FinishRun(run));
    }

    /** `schedule`'s finally, `releaseSlot` included. */
    method ReleaseRun(run: RunId)
      requires Valid() && Enabled(model, RunLifecycle.ReleaseRun(run))
      modifies this`reserved, this`queue, this`model
      ensures Valid() && model == Next(old(model), RunLifecycle.ReleaseRun(run))
      ensures run in rows && reserved == old(reserved) - {rows[run]}
      ensures queue == if old(queue) == [] then [] else old(queue)[1..]
    {
      hide Sound;
      StepStaysSound(model, RunLifecycle.ReleaseRun(run));
      reserved := reserved - {rows[run]};
      if queue != [] {
        queue := queue[1..];
      }
      model := Next(model, RunLifecycle.ReleaseRun(run));
    }

    /** An active run of the session is left to unwind, else its first queued run is
        rejected; the answer says whether there was either. */
    method Interrupt(session: SessionId) returns (stopped: bool)
      requires Valid()
      modifies this`queue, this`model
      ensures Valid() && model == Next(old(model), InterruptSession(session))
      ensures stopped <==> Stoppable(old(queue), active, rows, session)
      ensures FirstIsOut(old(queue), rows, session, queue)
    {
      hide Sound;
      StepStaysSound(model, InterruptSession(session));
      ghost var after := Next(model, InterruptSession(session));
      InterruptStops(model, session);
      hide SlotQueue.Interrupt;
      hide FirstIsOut;
      hide Stoppable;
      var entries := active.Keys;
      while entries != {}
        invariant entries <= active.Keys
        invariant forall r :: r in active && active[r] == session ==> r in entries
      {
        var r :| r in entries;
        if active[r] == session {
          assert HasActive(model.slots, session);
          model := after;
          return true;
        }
        entries := entries - {r};
      }
      var i := FindQueued(session);
      model := after;
      if i < |queue| {
        queue := queue[..i] + queue[i + 1..];
        return true;
      }
      return false;
    }

    /** `schedule`'s catch, for a run rejected from the queue. */
    method ClearRun(run: RunId) returns (answer: Answer)
      requires Valid() && Enabled(model, RunLifecycle.ClearRun(run))
      modifies this`reserved, this`awaitedRuns, this`delegationWaiters, this`delegationSettled, this`delegationAbandoned, this`model
      ensures Valid() && model == Next(old(model), RunLifecycle.ClearRun(run))
      ensures run in rows && reserved == old(reserved) - {rows[run]} && awaitedRuns == old(awaitedRuns) - {run}
      ensures AnswersTo(model.desk, run) == AnswersTo(old(model).desk, run) + if answer.Handed? then [answer.text] else []
    {
      hide Settle;
      hide AnswersTo;
      hide Sound;
      StepStaysSound(model, RunLifecycle.ClearRun(run));
      SettleAwaited(model.desk, run);
      reserved := reserved - {rows[run]};
      answer := SettleDelegation(run);
      model := Next(model, RunLifecycle.ClearRun(run));
    }

    /** `shutdown` up to its await. */
    method ShutDownNow()
      requires Valid()
      modifies this`shuttingDown, this`queue, this`model
      ensures Valid() && model == Next(old(model), ShutDown)
      ensures shuttingDown && queue == []
    {
      hide Sound;
      StepStaysSound(model, ShutDown);
      shuttingDown := true;
      queue := [];
      model := Next(model, ShutDown);
    }

    /** A caller asks for a run's text: the stash answers if the run has settled, and
        otherwise the caller joins the waiters. */
    method WaitForDelegation(run: RunId) returns (answer: Answer)
      requires Valid()
      modifies this`delegationSettled, this`delegationWaiters, this`model
      ensures Valid() && model == old(model).(desk := Wait(old(model).desk, run))
      ensures AnswersTo(model.desk, run) == AnswersTo(old(model).desk, run) + if answer.Handed? then [answer.text] else []
      ensures answer == if run in old(delegationSettled) && old(delegationSettled)[run].ready
                        then Handed(old(delegationSettled)[run].text) else Nothing
      ensures delegationSettled == if answer.Handed? then old(delegationSettled) - {run} else old(delegationSettled)
      ensures delegationWaiters == if answer.Handed? then old(delegationWaiters) else old(delegationWaiters) + {run}
    {
      hide Sound;
      StepStaysSound(model, WaitFor(run));
      if run in delegationSettled && delegationSettled[run].ready {
        answer := Handed(delegationSettled[run].text);
        delegationSettled := delegationSettled - {run};
      } else {
        answer := Nothing;
        delegationWaiters := delegationWaiters + {run};
      }
      model := Next(model, WaitFor(run));
    }

    /** The wait's clock runs out. */
    method TimeOutDelegation(run: RunId)
      requires Valid() && Enabled(model, TimeOut(run))
      modifies this`delegationWaiters, this`delegationAbandoned, this`model
      ensures Valid() && model == Next(old(model), TimeOut(run))
      ensures delegationWaiters == old(delegationWaiters) - {run} && delegationAbandoned == old(delegationAbandoned) + {run}
    {
      hide Sound;
      StepStaysSound(model, TimeOut(run));
      delegationWaiters := delegationWaiters - {run};
      delegationAbandoned := delegationAbandoned + {run};
      model := Next(model, TimeOut(run));
    }
  }
}
