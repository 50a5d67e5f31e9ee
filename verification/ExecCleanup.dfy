/**
  `cleanup_and_wait`, the sweep a turn's task makes when its agent loop has returned. It sets
  no token, so it covers only what is in the table; that is enough when no call of the turn is
  still on its way to the table.
 */
module ExecCleanup {
  import opened Basics
  import opened ExecSessions
  import opened ExecTheorems

  /** No call of the turn is still on its way to the table. */
  ghost predicate NoneEarly(s: State, t: Turn) {
    forall sid :: sid in s.commands && s.commands[sid].turn == Some(t) ==> !BeforeInsert(s.commands[sid].pc)
  }

  ghost predicate Asked(s: State, k: nat, t: Turn, sid: Sid) {
    sid in s.sessions && s.sessions[sid].owner == Some(t) ==>
      || sid in s.stopTasks
      || (k in s.sweeps && s.sweeps[k].turn == t && s.sweeps[k].phase.Cancelling? && sid in s.sweeps[k].phase.rest)
  }

  ghost predicate Swept(s: State, k: nat, t: Turn) {
    NoneEarly(s, t) && forall sid :: Asked(s, k, t, sid)
  }

  lemma SnapshotSweeps(s: State, k: nat, t: Turn)
    requires Inv(s) && Enabled(s, Snapshot(k)) && s.sweeps[k].turn == t && NoneEarly(s, t)
    ensures Swept(Apply(s, Snapshot(k)), k, t)
  {
    forall sid ensures Asked(Apply(s, Snapshot(k)), k, t, sid) {
      assert Placed(s, sid);
      if sid in s.sessions && s.sessions[sid].owner == Some(t) {
        InSnapshot(s, t, sid);
      }
    }
  }

  /** Steps that leave sweeps and stop tasks alone and put no session of the turn in the table. */
  lemma CalmStepKeepsSwept(s: State, s': State, k: nat, t: Turn)
    requires Swept(s, k, t)
    requires s'.sweeps == s.sweeps && s'.stopTasks == s.stopTasks
    requires forall x :: x in s'.sessions && s'.sessions[x].owner == Some(t) ==>
               x in s.sessions && s.sessions[x].owner == Some(t)
    requires NoneEarly(s', t)
    ensures Swept(s', k, t)
  {
    forall sid ensures Asked(s', k, t, sid) {
      assert Asked(s, k, t, sid);
    }
  }

  /** No new call of the turn, no canceller that cannot spawn. */
  predicate Undisturbed(a: Action, t: Turn) {
    a != Begin(Some(t)) && (a.RunCanceller? ==> a.spawned)
  }

  lemma GotoKeepsSwept(s: State, sid: Sid, pc: Pc, k: nat, t: Turn)
    requires Swept(s, k, t) && sid in s.commands && (BeforeInsert(pc) ==> s.commands[sid].turn != Some(t))
    ensures Swept(Goto(s, sid, pc), k, t)
  {
    CalmStepKeepsSwept(s, Goto(s, sid, pc), k, t);
  }

  lemma TakeKeepsSwept(s: State, sid: Sid, k: nat, t: Turn)
    requires Swept(s, k, t)
    ensures Swept(Take(s, sid), k, t)
  {
    CalmStepKeepsSwept(s, Take(s, sid), k, t);
  }

  lemma PollTableKeepsSwept(s: State, sid: Sid, exited: bool, k: nat, t: Turn)
    requires Swept(s, k, t)
    ensures Swept(PollTable(s, sid, exited), k, t)
  {
    CalmStepKeepsSwept(s, PollTable(s, sid, exited), k, t);
  }

  lemma AbandonKeepsSwept(s: State, sid: Sid, k: nat, t: Turn)
    requires Swept(s, k, t) && sid in s.commands
    ensures Swept(Abandon(s, sid), k, t)
  {
    CalmStepKeepsSwept(s, Abandon(s, sid), k, t);
  }

  lemma EarlyStepKeepsSwept(s: State, a: Action, k: nat, t: Turn)
    requires Swept(s, k, t) && Enabled(s, a) && EarlyStep(a) && !a.Spawn? && a != Begin(Some(t))
    ensures Swept(Apply(s, a), k, t)
  {
    CalmStepKeepsSwept(s, Apply(s, a), k, t);
  }

  lemma SpawnKeepsSwept(s: State, sid: Sid, ok: bool, k: nat, t: Turn)
    requires Swept(s, k, t) && Enabled(s, Spawn(sid, ok))
    ensures Swept(Apply(s, Spawn(sid, ok)), k, t)
  {
    CalmStepKeepsSwept(s, Apply(s, Spawn(sid, ok)), k, t);
  }

  lemma OutsideStepKeepsSwept(s: State, a: Action, k: nat, t: Turn)
    requires Swept(s, k, t) && Enabled(s, a) && OutsideStep(a) && !a.PollAgain? && !a.RunStopTask?
    ensures Swept(Apply(s, a), k, t)
  {
    CalmStepKeepsSwept(s, Apply(s, a), k, t);
  }

  lemma RunStopTaskKeepsSwept(s: State, sid: Sid, k: nat, t: Turn)
    requires Swept(s, k, t) && Enabled(s, RunStopTask(sid))
    ensures Swept(Apply(s, RunStopTask(sid)), k, t)
  {
    forall x ensures Asked(Apply(s, RunStopTask(sid)), k, t, x) {
      assert Asked(s, k, t, x);
    }
  }

  lemma SweepStepKeepsSwept(s: State, a: Action, k: nat, t: Turn)
    requires Swept(s, k, t) && Enabled(s, a) && SweepStep(a) && (a.RunCanceller? ==> a.spawned)
    ensures Swept(Apply(s, a), k, t)
  {
    forall x ensures Asked(Apply(s, a), k, t, x) {
      assert Asked(s, k, t, x);
    }
  }

  lemma StepKeepsSwept(s: State, a: Action, k: nat, t: Turn)
    requires Swept(s, k, t) && Enabled(s, a) && Undisturbed(a, t)
    ensures Swept(Apply(s, a), k, t)
  {
    hide Swept, Inv;
    match a
    case Begin(_) => EarlyStepKeepsSwept(s, a, k, t);
    case RegisterExec(_) => EarlyStepKeepsSwept(s, a, k, t);
    case Insert(_) => EarlyStepKeepsSwept(s, a, k, t);
    case Spawn(sid, ok) => SpawnKeepsSwept(s, sid, ok, k, t);
    case FirstPoll(sid, late) => GotoKeepsSwept(s, sid, Apply(s, a).commands[sid].pc, k, t);
    case SeeToken(sid) => GotoKeepsSwept(s, sid, Stopping, k, t);
    case TimerFires(sid) => GotoKeepsSwept(s, sid, Polling, k, t);
    case StopRemove(sid) =>
      GotoKeepsSwept(s, sid, Done, k, t);
      TakeKeepsSwept(Goto(s, sid, Done), sid, k, t);
    case Poll(sid, exited) =>
      GotoKeepsSwept(s, sid, Done, k, t);
      PollTableKeepsSwept(Goto(s, sid, Done), sid, exited, k, t);
    case PollAgain(sid, exited) => PollTableKeepsSwept(s, sid, exited, k, t);
    case DropCommand(sid) =>
      AbandonKeepsSwept(s, sid, k, t);
      GotoKeepsSwept(s, sid, Done, k, t);
    case RunStopTask(sid) => RunStopTaskKeepsSwept(s, sid, k, t);
    case StopAll => OutsideStepKeepsSwept(s, a, k, t);
    case TerminateDone(_) => OutsideStepKeepsSwept(s, a, k, t);
    case DropGuard(_) => OutsideStepKeepsSwept(s, a, k, t);
    case Registry(_, _) => OutsideStepKeepsSwept(s, a, k, t);
    case Cancel(_, _) => SweepStepKeepsSwept(s, a, k, t);
    case Cleanup(_, _) => SweepStepKeepsSwept(s, a, k, t);
    case Snapshot(_) => SweepStepKeepsSwept(s, a, k, t);
    case RunCanceller(_, _, _) => SweepStepKeepsSwept(s, a, k, t);
    case EndSweep(_) => SweepStepKeepsSwept(s, a, k, t);
  }

  lemma {:induction false} RunKeepsSwept(s: State, actions: seq<Action>, k: nat, t: Turn)
    requires Swept(s, k, t) && ValidRun(s, actions)
    requires forall a :: a in actions ==> Undisturbed(a, t)
    ensures Swept(Run(s, actions), k, t)
  {
    if actions != [] {
      var front, last := actions[..|actions| - 1], actions[|actions| - 1];
      assert last in actions && forall a :: a in front ==> a in actions;
      RunKeepsSwept(s, front, k, t);
      StepKeepsSwept(Run(s, front), last, k, t);
    }
  }

  /** No sweep of the turn is under way and no stop task of it is pending. */
  ghost predicate SweepsThrough(s: State, t: Turn) {
    && (forall j :: j in s.sweeps ==> s.sweeps[j].turn != t)
    && (forall sid :: sid in s.stopTasks ==> sid in s.commands && s.commands[sid].turn != Some(t))
  }

  lemma SweptAndThroughIsClear(s: State, k: nat, t: Turn)
    requires Inv(s) && Swept(s, k, t) && SweepsThrough(s, t)
    ensures NoSessionOf(s, t)
  {
    forall sid | sid in s.sessions ensures s.sessions[sid].owner != Some(t) {
      assert Asked(s, k, t, sid) && Placed(s, sid);
    }
  }

  /**
    A sweep whose snapshot is taken when no call of the turn is on its way to the table, with no
    new call of the turn and every canceller able to spawn, removes every session of the turn,
    cancelled or not, exposed or not, once its sweeps and stop tasks are through.
   */
  lemma {:induction false} CleanupClearsTurn(s: State, k: nat, after: seq<Action>, t: Turn)
    requires Inv(s) && Enabled(s, Snapshot(k)) && s.sweeps[k].turn == t && NoneEarly(s, t)
    requires ValidRun(Apply(s, Snapshot(k)), after)
    requires forall a :: a in after ==> Undisturbed(a, t)
    requires SweepsThrough(Run(Apply(s, Snapshot(k)), after), t)
    ensures NoSessionOf(Run(Apply(s, Snapshot(k)), after), t)
  {
    var s1 := Apply(s, Snapshot(k));
    StepKeepsInv(s, Snapshot(k));
    SnapshotSweeps(s, k, t);
    RunKeepsSwept(s1, after, k, t);
    RunKeepsInv(s1, after);
    SweptAndThroughIsClear(Run(s1, after), k, t);
  }
}
