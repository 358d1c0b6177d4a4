/** What a run nobody watches may do: the cap of apps/api/src/kernel/permissions.ts and
    the two ways kernel.ts admits a run on behalf of a machine or of another run. */
module RunCeilings {
  import opened Options

  type RunId = nat
  datatype Workspace = Workspace(id: string)

  datatype Mode = Default | Plan | AcceptEdits | DontAsk | Auto | BypassPermissions
  datatype Trigger = User | Automation | Loop | System | Delegation | Api

  /** `cause` is the run that asked for this one, when one did. */
  datatype Run = Run(workspace: Workspace, trigger: Trigger, ceiling: Option<Mode>, mode: Mode, cause: Option<RunId>)

  datatype Refusal = UnknownRun | AlreadyDelegated | UnknownWorkspace | OwnWorkspace
  datatype Admission = Admitted(id: RunId) | Refused(why: Refusal)

  // ----- the cap

  function UnattendedRank(mode: Mode): Option<nat> {
    match mode
    case Plan => Some(0)
    case DontAsk => Some(1)
    case AcceptEdits => Some(2)
    case _ => None
  }

  /** A mode that neither opens a prompt nor goes unbounded. */
  predicate Unattended(mode: Mode) {
    UnattendedRank(mode).Some?
  }

  predicate Within(mode: Mode, ceiling: Mode) {
    && Unattended(mode) && Unattended(ceiling)
    && UnattendedRank(mode).value <= UnattendedRank(ceiling).value
  }

  function CapPermissionMode(workspaceMode: Mode, ceiling: Mode): Mode
    requires Unattended(ceiling)
  {
    match UnattendedRank(workspaceMode)
    case None => ceiling
    case Some(requested) => if requested <= UnattendedRank(ceiling).value then workspaceMode else ceiling
  }

  /** The cap is the most that is within the ceiling and no wider than an unattended
      workspace; any other workspace gets the ceiling itself. */
  lemma CapIsTheMost(workspaceMode: Mode, ceiling: Mode, mode: Mode)
    requires Unattended(ceiling)
    ensures var capped := CapPermissionMode(workspaceMode, ceiling);
            Within(mode, capped) <==>
              Within(mode, ceiling) && (Unattended(workspaceMode) ==> Within(mode, workspaceMode))
  {
  }

  /** Capping again, under any other ceiling and in any order, takes the lesser. */
  lemma CapsCompose(workspaceMode: Mode, c: Mode, d: Mode)
    requires Unattended(c) && Unattended(d)
    ensures CapPermissionMode(CapPermissionMode(workspaceMode, c), d) == CapPermissionMode(CapPermissionMode(workspaceMode, d), c)
    ensures CapPermissionMode(CapPermissionMode(workspaceMode, c), c) == CapPermissionMode(workspaceMode, c)
  {
  }

  /** Plan is the least of the three unattended modes and accepting edits the most; any
      other mode takes the ceiling. */
  lemma UnattendedModesInOrder(mode: Mode, ceiling: Mode)
    requires Unattended(ceiling)
    ensures Unattended(mode) <==> mode == Plan || mode == DontAsk || mode == AcceptEdits
    ensures CapPermissionMode(Plan, ceiling) == Plan == CapPermissionMode(mode, Plan)
    ensures CapPermissionMode(DontAsk, AcceptEdits) == DontAsk == CapPermissionMode(AcceptEdits, DontAsk)
    ensures mode == Default || mode == Auto || mode == BypassPermissions ==> CapPermissionMode(mode, ceiling) == ceiling
    ensures CapPermissionMode(ceiling, ceiling) == ceiling
  {
  }

  // ----- forests of runs

  /** Every run is where the rules allow it. */
  ghost predicate Bounded(runs: map<RunId, Run>) {
    forall id :: id in runs ==> WellPlaced(runs, id)
  }

  ghost predicate WellPlaced(runs: map<RunId, Run>, id: RunId)
    requires id in runs
  {
    var run := runs[id];
    && (run.ceiling.Some? ==> Within(run.mode, run.ceiling.value))
    && (run.trigger == Delegation <==> run.cause.Some?)
    && (run.cause.Some? ==>
          && run.cause.value in runs
          && var origin := runs[run.cause.value];
             origin.trigger != Delegation && origin.workspace != run.workspace && origin.ceiling == run.ceiling)
  }

  lemma AddedStaysBounded(runs: map<RunId, Run>, id: RunId, run: Run)
    requires Bounded(runs) && id !in runs
    requires run.ceiling.Some? ==> Within(run.mode, run.ceiling.value)
    requires run.trigger == Delegation <==> run.cause.Some?
    requires run.cause.Some? ==>
               && run.cause.value in runs
               && var origin := runs[run.cause.value];
                  origin.trigger != Delegation && origin.workspace != run.workspace && origin.ceiling == run.ceiling
    ensures Bounded(runs[id := run])
  {
    var more := runs[id := run];
    forall other | other in more ensures WellPlaced(more, other) {
      if other != id {
        assert WellPlaced(runs, other);
      }
    }
  }

  /** `id` was asked for by `root`, directly or through other runs. */
  ghost predicate CausedBy(runs: map<RunId, Run>, id: RunId, root: RunId, steps: nat)
    decreases steps
  {
    && id in runs
    && if steps == 0 then id == root
       else runs[id].cause.Some? && CausedBy(runs, runs[id].cause.value, root, steps - 1)
  }

  /** However runs were admitted: a run under a ceiling, and everything it causes, is
      unattended and within that ceiling; and no chain has more than two runs. */
  lemma {:induction false} CeilingTravels(runs: map<RunId, Run>, id: RunId, root: RunId, steps: nat)
    requires Bounded(runs) && CausedBy(runs, id, root, steps)
    ensures root in runs && runs[id].ceiling == runs[root].ceiling
    ensures runs[root].ceiling.Some? ==> Within(runs[id].mode, runs[root].ceiling.value)
    ensures steps <= 1
    ensures runs[root].trigger == Delegation ==> id == root
    decreases steps
  {
    assert WellPlaced(runs, id);
    if steps > 0 {
      var origin := runs[id].cause.value;
      assert WellPlaced(runs, origin);
      CeilingTravels(runs, origin, root, steps - 1);
    }
  }

  /** An override decides, then the session, then the workspace. */
  function ModeOf(overriding: Option<Mode>, sessionMode: Option<Mode>, workspaceMode: Mode): Mode {
    if overriding.Some? then overriding.value
    else if sessionMode.Some? then sessionMode.value
    else workspaceMode
  }

  /** The widest unattended mode under a ceiling that an unattended workspace also allows. */
  ghost predicate IsTheMost(mode: Mode, workspaceMode: Mode, ceiling: Mode) {
    forall m: Mode :: Within(m, mode) <==> Within(m, ceiling) && (Unattended(workspaceMode) ==> Within(m, workspaceMode))
  }

  lemma MostIsCap(workspaceMode: Mode, ceiling: Mode)
    requires Unattended(ceiling)
    ensures IsTheMost(CapPermissionMode(workspaceMode, ceiling), workspaceMode, ceiling)
    ensures Within(CapPermissionMode(workspaceMode, ceiling), ceiling)
  {
    forall m: Mode {
      CapIsTheMost(workspaceMode, ceiling, m);
    }
  }

  class Admissions {
    var workspaces: map<Workspace, Mode>
    var runs: map<RunId, Run>

    ghost predicate Valid()
      reads this
    {
      Bounded(runs)
    }

    constructor ()
      ensures Valid() && runs == map[] && workspaces == map[]
    {
      workspaces, runs := map[], map[];
    }

    /** Settings change at any time; runs already admitted keep their mode. */
    method ChangeSettings(workspace: Workspace, mode: Mode)
      modifies this`workspaces
      ensures workspaces == old(workspaces)[workspace := mode]
    {
      workspaces := workspaces[workspace := mode];
    }

    /** A run a person, the schedule or the system asks for, in whatever mode the
        message, the session or the workspace says. */
    method Submit(id: RunId, workspace: Workspace, trigger: Trigger, overriding: Option<Mode>, sessionMode: Option<Mode>)
      returns (result: Admission)
      requires Valid() && id !in runs && trigger != Delegation && trigger != Api
      modifies this`runs
      ensures Valid()
      ensures workspace !in workspaces ==> result == Refused(UnknownWorkspace) && runs == old(runs)
      ensures workspace in workspaces ==>
                && result == Admitted(id) && id in runs
                && runs == old(runs)[id := Run(workspace, trigger, None, runs[id].mode, None)]
                && (overriding.Some? ==> runs[id].mode == overriding.value)
                && (overriding.None? && sessionMode.Some? ==> runs[id].mode == sessionMode.value)
                && (overriding.None? && sessionMode.None? ==> runs[id].mode == workspaces[workspace])
    {
      if workspace !in workspaces {
        return Refused(UnknownWorkspace);
      }
      result := Create(id, workspace, trigger, None, overriding, sessionMode, None);
    }

    /** A run a machine token asks for. */
    method StartForToken(id: RunId, workspace: Workspace, ceiling: Mode, sessionMode: Option<Mode>) returns (result: Admission)
      requires Valid() && id !in runs && Unattended(ceiling)
      modifies this`runs
      ensures Valid()
      ensures workspace !in workspaces ==> result == Refused(UnknownWorkspace) && runs == old(runs)
      ensures workspace in workspaces ==>
                && result == Admitted(id)
                && id in runs && runs == old(runs)[id := runs[id]]
                && runs[id].workspace == workspace && runs[id].trigger == Api && runs[id].ceiling == Some(ceiling)
                && IsTheMost(runs[id].mode, workspaces[workspace], ceiling)
    {
      if workspace !in workspaces {
        return Refused(UnknownWorkspace);
      }
      var capped := CapPermissionMode(workspaces[workspace], ceiling);
      MostIsCap(workspaces[workspace], ceiling);
      result := Create(id, workspace, Api, Some(ceiling), Some(capped), sessionMode, None);
    }

    /** A run another run asks for: refused if the asker is unknown or was itself
        delegated, or the target is unknown or the asker's own workspace. */
    method AdmitPeerRun(id: RunId, fromRun: RunId, target: Workspace, sessionMode: Option<Mode>) returns (result: Admission)
      requires Valid() && id !in runs
      modifies this`runs
      ensures Valid()
      ensures result.Refused? ==> runs == old(runs)
      ensures result == Refused(UnknownRun) <==> fromRun !in old(runs)
      ensures result == Refused(AlreadyDelegated) <==> fromRun in old(runs) && old(runs)[fromRun].cause.Some?
      ensures result.Admitted? <==>
                && fromRun in old(runs) && old(runs)[fromRun].cause.None?
                && target in workspaces && target != old(runs)[fromRun].workspace
      ensures result.Admitted? ==>
                && result.id == id && id in runs && runs == old(runs)[id := runs[id]]
                && runs[id].workspace == target && runs[id].cause == Some(fromRun)
                && match old(runs)[fromRun].ceiling
                   case Some(ceiling) => IsTheMost(runs[id].mode, workspaces[target], ceiling)
                   case None => runs[id].mode == if sessionMode.Some? then sessionMode.value else workspaces[target]
    {
      if fromRun !in runs {
        return Refused(UnknownRun);
      }
      var origin := runs[fromRun];
      assert WellPlaced(runs, fromRun);
      if origin.trigger == Delegation {
        return Refused(AlreadyDelegated);
      }
      if target !in workspaces {
        return Refused(UnknownWorkspace);
      }
      if target == origin.workspace {
        return Refused(OwnWorkspace);
      }
      var capped := None;
      if origin.ceiling.Some? {
        capped := Some(CapPermissionMode(workspaces[target], origin.ceiling.value));
        MostIsCap(workspaces[target], origin.ceiling.value);
      }
      result := Create(id, target, Delegation, origin.ceiling, capped, sessionMode, Some(fromRun));
    }

    /** What `submit` writes down about an admitted run. */
    method Create(id: RunId, workspace: Workspace, trigger: Trigger, ceiling: Option<Mode>,
                  overriding: Option<Mode>, sessionMode: Option<Mode>, cause: Option<RunId>)
      returns (result: Admission)
      requires Valid() && id !in runs && workspace in workspaces
      requires ceiling.Some? ==> overriding.Some? && Within(overriding.value, ceiling.value)
      requires trigger == Delegation <==> cause.Some?
      requires cause.Some? ==>
                 && cause.value in runs
                 && var origin := runs[cause.value];
                    origin.trigger != Delegation && origin.workspace != workspace && origin.ceiling == ceiling
      modifies this`runs
      ensures Valid() && result == Admitted(id)
      ensures runs == old(runs)[id := Run(workspace, trigger, ceiling,
                                          ModeOf(overriding, sessionMode, workspaces[workspace]), cause)]
    {
      var run := Run(workspace, trigger, ceiling, ModeOf(overriding, sessionMode, workspaces[workspace]), cause);
      AddedStaysBounded(runs, id, run);
      runs := runs[id := run];
      return Admitted(id);
    }
  }
}
