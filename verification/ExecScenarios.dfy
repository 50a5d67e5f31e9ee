/**
  Why `ExecTheorems.Hits` names three events: each of them alone can leave a session of a
  cancelled turn in the table with nothing in flight to remove it, and no other can.
 */
module ExecScenarios {
  import opened Basics
  import opened ExecSessions
  import opened ExecTheorems
  import Reg = TurnRegistry

  lemma Extend(s: State, actions: seq<Action>, a: Action)
    requires ValidRun(s, actions) && Enabled(Run(s, actions), a)
    ensures ValidRun(s, actions + [a]) && Run(s, actions + [a]) == Apply(Run(s, actions), a)
  {
  }

  /** One call of turn 7: everything about it that the steps below look at. */
  ghost predicate Only(s: State, pc: Pc, cancelled: bool, sweeps: map<nat, Sweep>, stopTasks: multiset<Sid>) {
    && s.commands.Keys == {1} && s.commands[1].turn == Some(7) && s.commands[1].pc == pc
    && (1 in s.sessions <==> !BeforeInsert(pc)) && (1 in s.sessions ==> s.sessions[1].owner == Some(7))
    && s.turns.Keys == {7} && s.turns[7].cancelled == cancelled
    && (pc != Starting ==> s.turns[7].registry.entries == map[1 := Reg.Exec(1)])
    && s.stopTasks == stopTasks && s.sweeps == sweeps
  }

  ghost predicate Leaked(s: State) {
    7 in s.turns && s.turns[7].cancelled && Quiet(s, 7) && 1 in s.sessions && s.sessions[1].owner == Some(7)
  }

  lemma OnlyLeaks(s: State)
    requires Only(s, Done, true, map[], multiset{})
    ensures Leaked(s)
  {
  }

  lemma Drawn(s: State)
    requires s == Init({7})
    ensures Only(Apply(s, Begin(Some(7))), Starting, false, map[], multiset{})
    ensures Apply(s, Begin(Some(7))).turns[7].registry == Reg.FRESH
  {
  }

  lemma Running(s: State)
    requires Only(s, Starting, false, map[], multiset{}) && s.turns[7].registry == Reg.FRESH
    ensures Enabled(s, RegisterExec(1)) && Enabled(Apply(s, RegisterExec(1)), Spawn(1, true))
    ensures Only(Apply(Apply(s, RegisterExec(1)), Spawn(1, true)), Spawned, false, map[], multiset{})
  {
  }

  lemma EmptyRun()
    ensures var s := Init({7}); ValidRun(s, []) && Run(s, []) == s && Enabled(s, Begin(Some(7)))
  {
  }

  lemma ReachSpawned() returns (actions: seq<Action>)
    ensures ValidRun(Init({7}), actions) && Only(Run(Init({7}), actions), Spawned, false, map[], multiset{})
    ensures NoDropNoFailure(actions) && NoLatePoll(actions)
  {
    hide ValidRun, Run, Apply, Enabled, Only, Init;
    var s := Init({7});
    actions := [];
    EmptyRun();
    Drawn(s);
    Extend(s, actions, Begin(Some(7)));
    actions := actions + [Begin(Some(7))];
    Running(Run(s, actions));
    Extend(s, actions, RegisterExec(1));
    actions := actions + [RegisterExec(1)];
    Extend(s, actions, Spawn(1, true));
    actions := actions + [Spawn(1, true)];
  }

  ghost predicate NoDropNoFailure(actions: seq<Action>) {
    forall a :: a in actions ==> !a.DropCommand? && (a.RunCanceller? ==> a.spawned)
  }

  ghost predicate NoLatePoll(actions: seq<Action>) {
    forall a :: a in actions ==> (a.FirstPoll? ==> !a.late)
  }

  /** Set the token and take the snapshot: the session's canceller is in it. */
  lemma Sweeping(s: State, pc: Pc)
    requires Only(s, pc, false, map[], multiset{}) && pc != Starting
    ensures Enabled(s, Cancel(7, 0)) && Enabled(Apply(s, Cancel(7, 0)), Snapshot(0))
    ensures Only(Apply(Apply(s, Cancel(7, 0)), Snapshot(0)), pc, true, map[0 := Sweep(7, Cancelling({1}))], multiset{})
  {
    var s1 := Apply(s, Cancel(7, 0));
    assert s1.turns[7].registry.entries[1] == Reg.Exec(1);
    assert ExecSessionsOf(s1.turns[7].registry) == {1};
    assert Apply(s1, Snapshot(0)).sweeps == map[0 := Sweep(7, Cancelling({1}))];
  }

  /** The canceller runs, its task finds no session yet, the sweep ends. */
  lemma StopTaskTooEarly(s: State)
    requires Only(s, Spawned, true, map[0 := Sweep(7, Cancelling({1}))], multiset{})
    ensures Enabled(s, RunCanceller(0, 1, true))
    ensures var s1 := Apply(s, RunCanceller(0, 1, true));
            && Enabled(s1, EndSweep(0)) && Enabled(Apply(s1, EndSweep(0)), RunStopTask(1))
            && Only(Apply(Apply(s1, EndSweep(0)), RunStopTask(1)), Spawned, true, map[], multiset{})
  {
    CancellerRan(s, true);
    var s2 := Apply(Apply(s, RunCanceller(0, 1, true)), EndSweep(0));
    assert Apply(s2, RunStopTask(1)).stopTasks == multiset{};
  }

  lemma CancellerRan(s: State, spawned: bool)
    requires s.sweeps == map[0 := Sweep(7, Cancelling({1}))] && s.stopTasks == multiset{}
    ensures Enabled(s, RunCanceller(0, 1, spawned)) && Enabled(Apply(s, RunCanceller(0, 1, spawned)), EndSweep(0))
    ensures var s2 := Apply(Apply(s, RunCanceller(0, 1, spawned)), EndSweep(0));
            s2 == s.(sweeps := map[], stopTasks := if spawned then multiset{1} else multiset{})
  {
    assert {1} - {1} == {};
    var s1 := Apply(s, RunCanceller(0, 1, spawned));
    assert s1.sweeps == map[0 := Sweep(7, Cancelling({}))];
    assert s1.sweeps - {0} == map[];
  }

  lemma ReachSwept() returns (actions: seq<Action>)
    ensures ValidRun(Init({7}), actions)
    ensures Only(Run(Init({7}), actions), Spawned, true, map[0 := Sweep(7, Cancelling({1}))], multiset{})
    ensures NoDropNoFailure(actions) && NoLatePoll(actions)
  {
    hide ValidRun, Run, Apply, Enabled, Only;
    var s := Init({7});
    actions := ReachSpawned();
    Sweeping(Run(s, actions), Spawned);
    Extend(s, actions, Cancel(7, 0));
    Extend(s, actions + [Cancel(7, 0)], Snapshot(0));
    actions := actions + [Cancel(7, 0)] + [Snapshot(0)];
  }

  /** The whole cancellation, stop task included, can pass before the insert. */
  lemma ReachInserted() returns (actions: seq<Action>)
    ensures ValidRun(Init({7}), actions) && Only(Run(Init({7}), actions), Inserted, true, map[], multiset{})
    ensures NoDropNoFailure(actions) && NoLatePoll(actions)
  {
    hide ValidRun, Run, Apply, Enabled, Only;
    var s := Init({7});
    actions := ReachSwept();
    StopTaskTooEarly(Run(s, actions));
    Extend(s, actions, RunCanceller(0, 1, true));
    Extend(s, actions + [RunCanceller(0, 1, true)], EndSweep(0));
    Extend(s, actions + [RunCanceller(0, 1, true)] + [EndSweep(0)], RunStopTask(1));
    actions := actions + [RunCanceller(0, 1, true)] + [EndSweep(0)] + [RunStopTask(1)];
    Inserting(Run(s, actions));
    Extend(s, actions, Insert(1));
    actions := actions + [Insert(1)];
  }

  lemma Inserting(s: State)
    requires Only(s, Spawned, true, map[], multiset{})
    ensures Enabled(s, Insert(1)) && Only(Apply(s, Insert(1)), Inserted, true, map[], multiset{})
  {
  }

  /** First: the select is first polled after the yield time and takes the timer arm. */
  lemma LateFirstPollLeaks() returns (actions: seq<Action>)
    ensures ValidRun(Init({7}), actions) && Leaked(Run(Init({7}), actions)) && NoDropNoFailure(actions)
  {
    hide ValidRun, Run, Apply, Enabled, Only;
    var s := Init({7});
    actions := ReachInserted();
    LatePoll(Run(s, actions));
    Extend(s, actions, FirstPoll(1, true));
    Extend(s, actions + [FirstPoll(1, true)], Poll(1, false));
    actions := actions + [FirstPoll(1, true)] + [Poll(1, false)];
    OnlyLeaks(Run(s, actions));
  }

  lemma LatePoll(s: State)
    requires Only(s, Inserted, true, map[], multiset{})
    ensures Enabled(s, FirstPoll(1, true)) && Enabled(Apply(s, FirstPoll(1, true)), Poll(1, false))
    ensures Only(Apply(Apply(s, FirstPoll(1, true)), Poll(1, false)), Done, true, map[], multiset{})
  {
  }

  lemma StopAndDrop(s: State)
    requires Only(s, Inserted, true, map[], multiset{})
    ensures Enabled(s, FirstPoll(1, false)) && Enabled(Apply(s, FirstPoll(1, false)), DropCommand(1))
    ensures Only(Apply(Apply(s, FirstPoll(1, false)), DropCommand(1)), Done, true, map[], multiset{})
  {
  }

  /** Second: the caller drops the call after it chose to stop, before it reached the table. */
  lemma DroppedCallLeaks() returns (actions: seq<Action>)
    ensures ValidRun(Init({7}), actions) && Leaked(Run(Init({7}), actions)) && NoLatePoll(actions)
    ensures forall a :: a in actions ==> (a.RunCanceller? ==> a.spawned)
  {
    hide ValidRun, Run, Apply, Enabled, Only;
    var s := Init({7});
    actions := ReachInserted();
    StopAndDrop(Run(s, actions));
    Extend(s, actions, FirstPoll(1, false));
    Extend(s, actions + [FirstPoll(1, false)], DropCommand(1));
    actions := actions + [FirstPoll(1, false)] + [DropCommand(1)];
    OnlyLeaks(Run(s, actions));
  }

  /** Third: the call had returned, its process runs on, and the canceller cannot spawn. */
  lemma FailedCancellerLeaks() returns (actions: seq<Action>)
    ensures ValidRun(Init({7}), actions) && Leaked(Run(Init({7}), actions)) && NoLatePoll(actions)
    ensures forall a :: a in actions ==> !a.DropCommand?
  {
    hide ValidRun, Run, Apply, Enabled, Only;
    var s := Init({7});
    actions := ReachSweptReturned();
    CannotSpawn(Run(s, actions));
    Extend(s, actions, RunCanceller(0, 1, false));
    Extend(s, actions + [RunCanceller(0, 1, false)], EndSweep(0));
    actions := actions + [RunCanceller(0, 1, false)] + [EndSweep(0)];
    OnlyLeaks(Run(s, actions));
  }

  lemma ReachSweptReturned() returns (actions: seq<Action>)
    ensures ValidRun(Init({7}), actions)
    ensures Only(Run(Init({7}), actions), Done, true, map[0 := Sweep(7, Cancelling({1}))], multiset{})
    ensures NoDropNoFailure(actions) && NoLatePoll(actions)
  {
    hide ValidRun, Run, Apply, Enabled, Only;
    var s := Init({7});
    actions := ReachReturned();
    Sweeping(Run(s, actions), Done);
    Extend(s, actions, Cancel(7, 0));
    Extend(s, actions + [Cancel(7, 0)], Snapshot(0));
    actions := actions + [Cancel(7, 0)] + [Snapshot(0)];
  }

  lemma CannotSpawn(s: State)
    requires Only(s, Done, true, map[0 := Sweep(7, Cancelling({1}))], multiset{})
    ensures Enabled(s, RunCanceller(0, 1, false)) && Enabled(Apply(s, RunCanceller(0, 1, false)), EndSweep(0))
    ensures Only(Apply(Apply(s, RunCanceller(0, 1, false)), EndSweep(0)), Done, true, map[], multiset{})
  {
    CancellerRan(s, false);
  }

  lemma ReachReturned() returns (actions: seq<Action>)
    ensures ValidRun(Init({7}), actions) && Only(Run(Init({7}), actions), Done, false, map[], multiset{})
    ensures NoDropNoFailure(actions) && NoLatePoll(actions)
  {
    hide ValidRun, Run, Apply, Enabled, Only;
    var s := Init({7});
    actions := ReachSpawned();
    Returning(Run(s, actions));
    Extend(s, actions, Insert(1));
    Extend(s, actions + [Insert(1)], FirstPoll(1, false));
    actions := actions + [Insert(1)] + [FirstPoll(1, false)];
    Extend(s, actions, TimerFires(1));
    Extend(s, actions + [TimerFires(1)], Poll(1, false));
    actions := actions + [TimerFires(1)] + [Poll(1, false)];
  }

  lemma Returning(s: State)
    requires Only(s, Spawned, false, map[], multiset{})
    ensures Enabled(s, Insert(1)) && Enabled(Apply(s, Insert(1)), FirstPoll(1, false))
    ensures var s1 := Apply(Apply(s, Insert(1)), FirstPoll(1, false));
            && Enabled(s1, TimerFires(1)) && Enabled(Apply(s1, TimerFires(1)), Poll(1, false))
            && Only(Apply(Apply(s1, TimerFires(1)), Poll(1, false)), Done, false, map[], multiset{})
  {
  }

  // --------------------------------------------------- which events are to be ruled out

  /** A run in which only the events allowed by the flags happen. */
  predicate Allowed(a: Action, late: bool, drop: bool, fail: bool) {
    && (a.FirstPoll? && a.late ==> late)
    && (a.DropCommand? ==> drop)
    && (a.RunCanceller? && !a.spawned ==> fail)
  }

  /** Every such run leaves every cancelled turn clean once nothing of it is in flight. */
  ghost predicate AlwaysClean(late: bool, drop: bool, fail: bool) {
    forall turns, actions, t: Turn ::
      LeavesClean(turns, actions, t) || exists a :: a in actions && !Allowed(a, late, drop, fail)
  }

  ghost predicate LeavesClean(turns: set<Turn>, actions: seq<Action>, t: Turn) {
    ValidRun(Init(turns), actions) && Cancelled(Run(Init(turns), actions), t) && Quiet(Run(Init(turns), actions), t) ==>
      NoSessionOf(Run(Init(turns), actions), t)
  }

  lemma {:induction false} AllowedHitsNothing(s: State, actions: seq<Action>)
    requires ValidRun(s, actions) && forall a :: a in actions ==> Allowed(a, false, false, false)
    ensures NoHits(s, actions)
  {
    if actions != [] {
      var front, last := actions[..|actions| - 1], actions[|actions| - 1];
      assert last in actions && forall a :: a in front ==> a in actions;
      AllowedHitsNothing(s, front);
    }
  }

  lemma WithoutEventsClean(turns: set<Turn>, actions: seq<Action>, t: Turn)
    requires forall a :: a in actions ==> Allowed(a, false, false, false)
    ensures LeavesClean(turns, actions, t)
  {
    hide Run, ValidRun, Init, Quiet, ExposedSince, NoHits, NoSessionOf;
    var s := Init(turns);
    if ValidRun(s, actions) && Cancelled(Run(s, actions), t) && Quiet(Run(s, actions), t) {
      AllowedHitsNothing(s, actions);
      forall sid ensures !ExposedSince(s, actions, t, sid) {
        NoHitsNoExposure(s, actions, t, sid);
      }
      CancellationLeavesNothingBehind(turns, actions, t);
    }
  }

  lemma LeakIsNotClean(actions: seq<Action>)
    requires ValidRun(Init({7}), actions) && Leaked(Run(Init({7}), actions))
    ensures !LeavesClean({7}, actions, 7)
  {
  }

  /** Every run leaves cancelled turns clean exactly when all three kinds of event are ruled out. */
  lemma AlwaysCleanIff(late: bool, drop: bool, fail: bool)
    ensures AlwaysClean(late, drop, fail) <==> !late && !drop && !fail
  {
    if !late && !drop && !fail {
      forall turns, actions, t: Turn
        ensures LeavesClean(turns, actions, t) || exists a :: a in actions && !Allowed(a, late, drop, fail)
      {
        if forall a :: a in actions ==> Allowed(a, late, drop, fail) {
          WithoutEventsClean(turns, actions, t);
        }
      }
    } else {
      var actions := LeakFor(late, drop, fail);
      LeakIsNotClean(actions);
    }
  }

  lemma LeakFor(late: bool, drop: bool, fail: bool) returns (actions: seq<Action>)
    requires late || drop || fail
    ensures ValidRun(Init({7}), actions) && Leaked(Run(Init({7}), actions))
    ensures forall a :: a in actions ==> Allowed(a, late, drop, fail)
  {
    hide ValidRun, Run, Init, Leaked;
    if late {
      actions := LateFirstPollLeaks();
    } else if drop {
      actions := DroppedCallLeaks();
    } else {
      actions := FailedCancellerLeaks();
    }
  }
}
