/**
  What cancelling a turn does not touch: the sessions of other turns, and of no turn. And, step by
  step, what takes a session out of the table and ends a process.
 */
module ExecIsolation {
  import opened Basics
  import opened ExecSessions
  import opened ExecFrames
  import opened ExecTheorems
  import opened ExecAccounting
  import Reg = TurnRegistry

  // ------------------------------------------------------------ one step at a time

  /** The steps that take one session out of the table: its own. */
  predicate TakesOut(a: Action, sid: Sid) {
    a == StopRemove(sid) || a == RunStopTask(sid) || SeesExit(a, sid) || a == StopAll
  }

  /** A poll that saw the process exited. */
  predicate SeesExit(a: Action, sid: Sid) {
    a == Poll(sid, true) || a == PollAgain(sid, true)
  }

  lemma EarlyStepKeepsTable(s: State, a: Action, sid: Sid)
    requires Enabled(s, a) && EarlyStep(a)
    ensures sid in Apply(s, a).sessions <==> sid in s.sessions || a == Insert(sid)
  {
  }

  lemma SelectStepKeepsTable(s: State, a: Action)
    requires Enabled(s, a) && SelectStep(a)
    ensures Apply(s, a).sessions == s.sessions && Apply(s, a).alive == s.alive
  {
  }

  lemma SweepStepKeepsTable(s: State, a: Action)
    requires Enabled(s, a) && SweepStep(a)
    ensures Apply(s, a).sessions == s.sessions && Apply(s, a).alive == s.alive
  {
  }

  lemma LastStepKeepsTable(s: State, a: Action, sid: Sid)
    requires Enabled(s, a) && LastStep(a)
    ensures sid in Apply(s, a).sessions <==> sid in s.sessions && !TakesOut(a, sid)
  {
  }

  lemma TakingStepKeepsTable(s: State, a: Action, sid: Sid)
    requires Enabled(s, a) && (a.PollAgain? || a.StopAll? || a.RunStopTask?)
    ensures sid in Apply(s, a).sessions <==> sid in s.sessions && !TakesOut(a, sid)
  {
  }

  lemma ReleasingStepKeepsTable(s: State, a: Action)
    requires Enabled(s, a) && (a.TerminateDone? || a.DropGuard? || a.Registry?)
    ensures Apply(s, a).sessions == s.sessions
  {
  }

  /** The table changes by these steps only: its own insert, and the steps that take it out. */
  lemma TableChangesIff(s: State, a: Action, sid: Sid)
    requires Enabled(s, a)
    ensures sid in Apply(s, a).sessions <==> (sid in s.sessions && !TakesOut(a, sid)) || a == Insert(sid)
  {
    hide Enabled, Apply;
    if EarlyStep(a) {
      EarlyStepKeepsTable(s, a, sid);
    } else if SelectStep(a) {
      SelectStepKeepsTable(s, a);
    } else if LastStep(a) {
      LastStepKeepsTable(s, a, sid);
    } else if SweepStep(a) {
      SweepStepKeepsTable(s, a);
    } else if a.PollAgain? || a.StopAll? || a.RunStopTask? {
      TakingStepKeepsTable(s, a, sid);
    } else {
      ReleasingStepKeepsTable(s, a);
    }
  }

  /** The end of a process: its termination, a poll of its session that saw it exited, its call dropped before the insert. */
  predicate EndsProcess(s: State, a: Action, sid: Sid) {
    || a == TerminateDone(sid) || (SeesExit(a, sid) && sid in s.sessions)
    || (a == DropCommand(sid) && At(s, sid, Spawned)) || a == Spawn(sid, false)
  }

  lemma EarlyStepKeepsProcess(s: State, a: Action, sid: Sid)
    requires Enabled(s, a) && EarlyStep(a)
    ensures sid in Apply(s, a).alive <==> (sid in s.alive && !EndsProcess(s, a, sid)) || a == Spawn(sid, true)
  {
  }

  lemma StopOrPollKeepsProcess(s: State, a: Action, sid: Sid)
    requires Enabled(s, a) && (a.StopRemove? || a.Poll?)
    ensures sid in Apply(s, a).alive <==> sid in s.alive && !EndsProcess(s, a, sid)
  {
  }

  lemma DropCommandKeepsProcess(s: State, x: Sid, sid: Sid)
    requires Enabled(s, DropCommand(x))
    ensures sid in Apply(s, DropCommand(x)).alive <==> sid in s.alive && !EndsProcess(s, DropCommand(x), sid)
  {
  }

  lemma OutsideStepKeepsProcess(s: State, a: Action, sid: Sid)
    requires Enabled(s, a) && OutsideStep(a)
    ensures sid in Apply(s, a).alive <==> sid in s.alive && !EndsProcess(s, a, sid)
  {
  }

  lemma ProcessEndsIff(s: State, a: Action, sid: Sid)
    requires Enabled(s, a)
    ensures sid in Apply(s, a).alive <==> (sid in s.alive && !EndsProcess(s, a, sid)) || a == Spawn(sid, true)
  {
    hide Enabled, Apply;
    if EarlyStep(a) {
      EarlyStepKeepsProcess(s, a, sid);
    } else if SelectStep(a) {
      SelectStepKeepsTable(s, a);
    } else if a.DropCommand? {
      DropCommandKeepsProcess(s, a.sid, sid);
    } else if LastStep(a) {
      StopOrPollKeepsProcess(s, a, sid);
    } else if SweepStep(a) {
      SweepStepKeepsTable(s, a);
    } else {
      OutsideStepKeepsProcess(s, a, sid);
    }
  }

  /** A snapshot takes the cancellers of exactly the sessions that some owner holds for the turn. */
  lemma SnapshotTakesOwned(s: State, k: nat)
    requires Inv(s) && Enabled(s, Snapshot(k))
    ensures Apply(s, Snapshot(k)).sweeps[k].phase == Cancelling(Owned(s, s.sweeps[k].turn))
  {
    var t := s.sweeps[k].turn;
    var r := s.turns[t].registry;
    forall sid
      ensures sid in ExecSessionsOf(r) <==> sid in Owned(s, t)
    {
      OwnedHasGuard(s, t, sid);
      assert Listed(s, sid);
      if sid in ExecSessionsOf(r) {
        var id :| id in r.entries && r.entries[id] == Reg.Exec(sid);
        assert EntryOwned(s, t, id);
      }
    }
  }

  // --------------------------------------------------------------- over whole runs

  /** What a sweep is still going to ask for, and what stop tasks are for, are sessions of cancelled or cleaned up turns. */
  ghost predicate SweepsOwn(s: State) {
    && (forall k, sid :: k in s.sweeps && s.sweeps[k].phase.Cancelling? && sid in s.sweeps[k].phase.rest ==>
          OfTurn(s, s.sweeps[k].turn, sid))
    && (forall sid :: sid in s.stopTasks ==> sid in s.commands && s.commands[sid].turn.Some?)
  }

  lemma SnapshotKeepsOwn(s: State, k: nat)
    requires Inv(s) && SweepsOwn(s) && Enabled(s, Snapshot(k))
    ensures SweepsOwn(Apply(s, Snapshot(k)))
  {
    SnapshotTakesOwned(s, k);
    var t := s.sweeps[k].turn;
    hide Owned;
    forall sid | sid in Owned(s, t)
      ensures OfTurn(s, t, sid)
    {
      OwnedHasGuard(s, t, sid);
      assert Listed(s, sid);
    }
  }

  lemma RunCancellerKeepsOwn(s: State, k: nat, x: Sid, spawned: bool)
    requires SweepsOwn(s) && Enabled(s, RunCanceller(k, x, spawned))
    ensures SweepsOwn(Apply(s, RunCanceller(k, x, spawned)))
  {
  }

  lemma SweepStepKeepsOwn(s: State, a: Action)
    requires SweepsOwn(s) && Enabled(s, a) && (a.Cancel? || a.Cleanup? || a.EndSweep?)
    ensures SweepsOwn(Apply(s, a))
  {
  }

  ghost predicate SweepsKept(s: State, s': State) {
    s'.sweeps == s.sweeps && forall sid :: sid in s'.stopTasks ==> sid in s.stopTasks
  }

  lemma CallStepKeepsSweeps(s: State, a: Action)
    requires Enabled(s, a) && (EarlyStep(a) || SelectStep(a))
    ensures SweepsKept(s, Apply(s, a))
  {
  }

  lemma LastStepKeepsSweeps(s: State, a: Action)
    requires Enabled(s, a) && LastStep(a)
    ensures SweepsKept(s, Apply(s, a))
  {
  }

  lemma OutsideStepKeepsSweeps(s: State, a: Action)
    requires Enabled(s, a) && OutsideStep(a)
    ensures SweepsKept(s, Apply(s, a))
  {
  }

  lemma OtherStepKeepsSweeps(s: State, a: Action)
    requires Enabled(s, a) && !SweepStep(a)
    ensures SweepsKept(s, Apply(s, a))
  {
    hide Enabled, Apply;
    if EarlyStep(a) || SelectStep(a) {
      CallStepKeepsSweeps(s, a);
    } else if LastStep(a) {
      LastStepKeepsSweeps(s, a);
    } else {
      OutsideStepKeepsSweeps(s, a);
    }
  }

  lemma StepKeepsOwn(s: State, a: Action)
    requires Inv(s) && SweepsOwn(s) && Enabled(s, a)
    ensures SweepsOwn(Apply(s, a))
  {
    hide Enabled, Apply, Inv;
    if a.Snapshot? {
      SnapshotKeepsOwn(s, a.sweep);
    } else if a.RunCanceller? {
      RunCancellerKeepsOwn(s, a.sweep, a.sid, a.spawned);
    } else if SweepStep(a) {
      SweepStepKeepsOwn(s, a);
    } else {
      OtherStepKeepsSweeps(s, a);
      StepKeepsTurns(s, a);
    }
  }

  /** In every reachable state, what a sweep is going to ask for are sessions of its own turn. */
  lemma {:induction false} SweepsAskTheirOwn(turns: set<Turn>, actions: seq<Action>)
    requires ValidRun(Init(turns), actions)
    ensures SweepsOwn(Run(Init(turns), actions))
  {
    if actions != [] {
      var front := actions[..|actions| - 1];
      InitInv(turns);
      RunKeepsInv(Init(turns), front);
      SweepsAskTheirOwn(turns, front);
      StepKeepsOwn(Run(Init(turns), front), actions[|actions| - 1]);
    }
  }

  /** Steps that are not meant for the sessions of `owner`, a turn or none. */
  predicate Spares(a: Action, owner: Option<Turn>) {
    !a.StopAll? && (a.Cancel? || a.Cleanup? ==> Some(a.turn) != owner)
  }

  ghost predicate OwnedBy(s: State, owner: Option<Turn>, sid: Sid) {
    sid in s.commands && s.commands[sid].turn == owner
  }

  /** Nothing has been set off against the sessions of `owner`. */
  ghost predicate Calm(s: State, owner: Option<Turn>) {
    && (owner.Some? && owner.value in s.turns ==> !s.turns[owner.value].cancelled)
    && (forall k :: k in s.sweeps ==> Some(s.sweeps[k].turn) != owner)
    && (forall sid :: OwnedBy(s, owner, sid) ==> CalmFor(s, sid))
  }

  predicate CalmFor(s: State, sid: Sid) {
    sid !in s.stopTasks && !At(s, sid, Stopping) && sid !in s.terminating
  }

  lemma RunCancellerKeepsCalm(s: State, k: nat, x: Sid, spawned: bool, owner: Option<Turn>)
    requires SweepsOwn(s) && Calm(s, owner) && Enabled(s, RunCanceller(k, x, spawned))
    ensures Calm(Apply(s, RunCanceller(k, x, spawned)), owner)
  {
    var s' := Apply(s, RunCanceller(k, x, spawned));
    assert OfTurn(s, s.sweeps[k].turn, x) && Some(s.sweeps[k].turn) != owner;
    forall sid | OwnedBy(s', owner, sid)
      ensures CalmFor(s', sid)
    {
      assert OwnedBy(s, owner, sid) && sid != x;
    }
  }

  lemma SweepStepKeepsCalm(s: State, a: Action, owner: Option<Turn>)
    requires Calm(s, owner) && Enabled(s, a) && SweepStep(a) && !a.RunCanceller? && Spares(a, owner)
    ensures Calm(Apply(s, a), owner)
  {
    var s' := Apply(s, a);
    forall sid | OwnedBy(s', owner, sid)
      ensures CalmFor(s', sid)
    {
      assert OwnedBy(s, owner, sid);
    }
  }

  /** No step makes a session of an uncancelled turn choose to stop. */
  lemma SelectStepKeepsCalm(s: State, a: Action, sid: Sid)
    requires Enabled(s, a) && SelectStep(a) && !TokenSet(s, sid) && CalmFor(s, sid)
    ensures CalmFor(Apply(s, a), sid)
  {
  }

  lemma NewCallIsCalm(s: State, owner: Option<Turn>)
    requires Inv(s) && SweepsOwn(s) && Enabled(s, Begin(owner))
    ensures CalmFor(Apply(s, Begin(owner)), s.nextId)
  {
    assert Placed(s, s.nextId);
  }

  lemma EarlyStepKeepsCalm(s: State, a: Action, sid: Sid)
    requires Inv(s) && Enabled(s, a) && EarlyStep(a) && sid in s.commands && CalmFor(s, sid)
    ensures CalmFor(Apply(s, a), sid)
  {
    assert Placed(s, s.nextId);
  }

  lemma StopRemoveKeepsCalm(s: State, x: Sid, sid: Sid)
    requires Enabled(s, StopRemove(x)) && CalmFor(s, sid)
    ensures CalmFor(Apply(s, StopRemove(x)), sid)
  {
  }

  lemma PollKeepsCalm(s: State, x: Sid, exited: bool, sid: Sid)
    requires Enabled(s, Poll(x, exited)) && CalmFor(s, sid)
    ensures CalmFor(Apply(s, Poll(x, exited)), sid)
  {
  }

  lemma DropCommandKeepsCalm(s: State, x: Sid, sid: Sid)
    requires Enabled(s, DropCommand(x)) && CalmFor(s, sid)
    ensures CalmFor(Apply(s, DropCommand(x)), sid)
  {
  }

  lemma OutsideStepKeepsCalm(s: State, a: Action, sid: Sid)
    requires Enabled(s, a) && OutsideStep(a) && !a.StopAll? && CalmFor(s, sid)
    ensures CalmFor(Apply(s, a), sid)
  {
  }

  lemma StepKeepsCalm(s: State, a: Action, owner: Option<Turn>)
    requires Inv(s) && SweepsOwn(s) && Calm(s, owner) && Enabled(s, a) && Spares(a, owner)
    ensures Calm(Apply(s, a), owner)
  {
    hide Inv, SweepsOwn, Enabled, Apply, CalmFor;
    var s' := Apply(s, a);
    if a.RunCanceller? {
      RunCancellerKeepsCalm(s, a.sweep, a.sid, a.spawned, owner);
    } else if SweepStep(a) {
      SweepStepKeepsCalm(s, a, owner);
    } else {
      StepKeepsTokens(s, a);
      StepKeepsTurns(s, a);
      OtherStepKeepsSweeps(s, a);
      forall sid | OwnedBy(s', owner, sid)
        ensures CalmFor(s', sid)
      {
        assert sid in s.commands ==> OwnedBy(s, owner, sid);
        if sid !in s.commands {
          NewCallIsCalm(s, a.owner);
        } else if EarlyStep(a) {
          EarlyStepKeepsCalm(s, a, sid);
        } else if SelectStep(a) {
          SelectStepKeepsCalm(s, a, sid);
        } else if a.StopRemove? {
          StopRemoveKeepsCalm(s, a.sid, sid);
        } else if a.Poll? {
          PollKeepsCalm(s, a.sid, a.exited, sid);
        } else if a.DropCommand? {
          DropCommandKeepsCalm(s, a.sid, sid);
        } else {
          OutsideStepKeepsCalm(s, a, sid);
        }
      }
    }
  }

  lemma {:induction false} RunKeepsCalm(turns: set<Turn>, actions: seq<Action>, owner: Option<Turn>)
    requires ValidRun(Init(turns), actions) && forall a :: a in actions ==> Spares(a, owner)
    ensures Inv(Run(Init(turns), actions)) && SweepsOwn(Run(Init(turns), actions))
    ensures Calm(Run(Init(turns), actions), owner)
  {
    InitInv(turns);
    RunKeepsInv(Init(turns), actions);
    SweepsAskTheirOwn(turns, actions);
    if actions != [] {
      var front, last := actions[..|actions| - 1], actions[|actions| - 1];
      assert last in actions && forall a :: a in front ==> a in actions;
      RunKeepsCalm(turns, front, owner);
      StepKeepsCalm(Run(Init(turns), front), last, owner);
    } else {
      InitIsCalm(turns, owner);
    }
  }

  lemma InitIsCalm(turns: set<Turn>, owner: Option<Turn>)
    ensures Calm(Init(turns), owner)
  {
  }

  lemma OnlyExitIsPossible(s: State, a: Action, sid: Sid)
    requires Placed(s, sid) && sid in s.sessions && CalmFor(s, sid) && Enabled(s, a) && !a.StopAll?
    ensures TakesOut(a, sid) <==> SeesExit(a, sid)
    ensures EndsProcess(s, a, sid) <==> SeesExit(a, sid)
    ensures a != Insert(sid) && a != Spawn(sid, true) && sid !in s.terminating
  {
  }

  /**
    Cancelling turns leaves others alone. After any interleaving without `stop_all`, and without a
    cancel or cleanup of turn u, a session of u leaves the table only by a poll that saw it exited,
    and no process of u in the table ends otherwise; the same for sessions of no turn.
   */
  lemma {:induction false} OthersAreLeftAlone(turns: set<Turn>, actions: seq<Action>, a: Action, owner: Option<Turn>, sid: Sid)
    requires ValidRun(Init(turns), actions) && Enabled(Run(Init(turns), actions), a)
    requires Spares(a, owner) && forall x :: x in actions ==> Spares(x, owner)
    requires var s := Run(Init(turns), actions); sid in s.sessions && s.sessions[sid].owner == owner
    ensures var s := Run(Init(turns), actions);
            && (sid !in Apply(s, a).sessions <==> SeesExit(a, sid))
            && (sid in s.alive ==> (sid !in Apply(s, a).alive <==> SeesExit(a, sid)))
            && sid !in s.terminating
  {
    hide ValidRun, Run, Apply, Init, Enabled, CalmFor, SweepsOwn, TakesOut, EndsProcess, SeesExit;
    var s := Run(Init(turns), actions);
    RunKeepsCalm(turns, actions, owner);
    assert Placed(s, sid) && OwnedBy(s, owner, sid) && CalmFor(s, sid);
    OnlyExitIsPossible(s, a, sid);
    TableChangesIff(s, a, sid);
    ProcessEndsIff(s, a, sid);
  }
}
