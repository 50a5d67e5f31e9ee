/** Every step of the exec-session protocol keeps its invariant. */
module ExecInvariant {
  import opened Basics
  import opened ExecSessions
  import Reg = TurnRegistry

  /** Owners may change, but every guard stays held and every registry stays as it is. */
  ghost predicate SameGuards(s: State, s': State) {
    && s'.commands.Keys == s.commands.Keys
    && (forall x :: x in s.commands ==> s'.commands[x].turn == s.commands[x].turn)
    && (forall x :: GuardOf(s', x) == GuardOf(s, x))
    && s'.turns.Keys == s.turns.Keys
    && (forall t :: t in s.turns ==> s'.turns[t].registry == s.turns[t].registry)
  }

  lemma SameGuardsKeepInv(s: State, s': State)
    requires Inv(s) && SameGuards(s, s')
    requires forall x :: Placed(s', x) && Guarded(s', x)
    requires forall k :: SweepOk(s', k)
    ensures Inv(s')
  {
    forall x ensures Listed(s', x) {
      assert Listed(s, x);
    }
    forall t, id ensures EntryOwned(s', t, id) {
      assert EntryOwned(s, t, id);
    }
  }

  /** A step that moves one session keeps the invariant if it does for that session. */
  lemma MoveKeepsInv(s: State, s': State, sid: Sid)
    requires Inv(s) && MovesOnly(s, s', sid)
    requires Placed(s', sid) && Guarded(s', sid) && GuardOf(s', sid) == GuardOf(s, sid)
    ensures Inv(s')
  {
    forall x
      ensures Placed(s', x) && Guarded(s', x) && GuardOf(s', x) == GuardOf(s, x)
      ensures x in s.commands ==> s'.commands[x].turn == s.commands[x].turn
    {
      assert x != sid ==> Untouched(s, s', x) && Placed(s, x) && Guarded(s, x);
    }
    forall k ensures SweepOk(s', k) { assert SweepOk(s, k); }
    SameGuardsKeepInv(s, s');
  }

  /** Moving on within a call, nothing else changed. */
  lemma GotoKeepsInv(s: State, sid: Sid, pc: Pc)
    requires Inv(s) && sid in s.commands && !BeforeInsert(s.commands[sid].pc) && !BeforeInsert(pc)
    ensures Inv(Goto(s, sid, pc))
  {
    assert Placed(s, sid) && Guarded(s, sid);
    MoveKeepsInv(s, Goto(s, sid, pc), sid);
  }

  lemma TakeKeepsInv(s: State, sid: Sid)
    requires Inv(s)
    ensures Inv(Take(s, sid))
  {
    assert Placed(s, sid) && Guarded(s, sid);
    MoveKeepsInv(s, Take(s, sid), sid);
  }

  lemma PollKeepsInv(s: State, sid: Sid, exited: bool)
    requires Inv(s)
    ensures Inv(PollTable(s, sid, exited))
  {
    assert Placed(s, sid) && Guarded(s, sid);
    MoveKeepsInv(s, PollTable(s, sid, exited), sid);
  }

  lemma TerminateDoneKeepsInv(s: State, sid: Sid)
    requires Inv(s) && Enabled(s, TerminateDone(sid))
    ensures Inv(Apply(s, TerminateDone(sid)))
  {
    assert Placed(s, sid) && Guarded(s, sid);
    MoveKeepsInv(s, Apply(s, TerminateDone(sid)), sid);
  }

  lemma AbandonKeepsInv(s: State, sid: Sid)
    requires Inv(s) && HoldsGuard(s, sid)
    ensures Inv(Abandon(s, sid))
  {
    assert Placed(s, sid) && Guarded(s, sid);
    MoveKeepsInv(s, Abandon(s, sid), sid);
  }

  lemma SpawnKeepsInv(s: State, sid: Sid)
    requires Inv(s) && Enabled(s, Spawn(sid, true))
    ensures Inv(Apply(s, Spawn(sid, true)))
  {
    assert Placed(s, sid) && Guarded(s, sid);
    MoveKeepsInv(s, Apply(s, Spawn(sid, true)), sid);
  }

  lemma InsertKeepsInv(s: State, sid: Sid)
    requires Inv(s) && Enabled(s, Insert(sid))
    ensures Inv(Apply(s, Insert(sid)))
  {
    assert Placed(s, sid) && Guarded(s, sid);
    MoveKeepsInv(s, Apply(s, Insert(sid)), sid);
  }

  lemma StopAllKeepsInv(s: State)
    requires Inv(s)
    ensures Inv(Apply(s, StopAll))
  {
    var s' := Apply(s, StopAll);
    forall x ensures Placed(s', x) && Guarded(s', x) && GuardOf(s', x) == GuardOf(s, x) {
      assert Placed(s, x) && Guarded(s, x);
    }
    forall k ensures SweepOk(s', k) { assert SweepOk(s, k); }
    SameGuardsKeepInv(s, s');
  }

  /** Steps of sweeps and stop tasks leave commands, sessions and registries alone. */
  lemma SweepStepKeepsInv(s: State, s': State)
    requires Inv(s)
    requires s' == s.(turns := s'.turns, sweeps := s'.sweeps, stopTasks := s'.stopTasks)
    requires s'.turns.Keys == s.turns.Keys && forall t :: t in s.turns ==> s'.turns[t].registry == s.turns[t].registry
    requires forall k :: SweepOk(s', k)
    ensures Inv(s')
  {
    forall x ensures Placed(s', x) && Guarded(s', x) && GuardOf(s', x) == GuardOf(s, x) {
      assert Placed(s, x) && Guarded(s, x);
    }
    SameGuardsKeepInv(s, s');
  }

  lemma BeginKeepsInv(s: State, owner: Option<Turn>)
    requires Inv(s) && Enabled(s, Begin(owner))
    ensures Inv(Apply(s, Begin(owner)))
  {
    var s' := Apply(s, Begin(owner));
    assert Placed(s, s.nextId);
    forall x ensures Placed(s', x) && Guarded(s', x) && Listed(s', x) && GuardOf(s', x) == GuardOf(s, x) {
      assert Placed(s, x) && Guarded(s, x) && Listed(s, x);
    }
    forall t, id ensures EntryOwned(s', t, id) { assert EntryOwned(s, t, id); }
    forall k ensures SweepOk(s', k) { assert SweepOk(s, k); }
  }

  /** Steps on one registry that neither add nor remove exec entries. */
  lemma OthersStepKeepsInv(s: State, t: Turn, step: Reg.Action)
    requires Inv(s) && Enabled(s, Registry(t, step))
    ensures Inv(Apply(s, Registry(t, step)))
  {
    var s' := Apply(s, Registry(t, step));
    var r, r' := s.turns[t].registry, s'.turns[t].registry;
    Reg.StepKeepsInv(r, step);
    assert forall id, x :: id in r'.entries && r'.entries[id] == Reg.Exec(x)
             <==> id in r.entries && r.entries[id] == Reg.Exec(x);
    RegistryChangeKeepsInv(s, t, r');
  }

  lemma RegistryChangeKeepsInv(s: State, t: Turn, r': Reg.Registry)
    requires Inv(s) && t in s.turns && Reg.Inv(r')
    requires forall id, x :: id in r'.entries && r'.entries[id] == Reg.Exec(x)
               <==> id in s.turns[t].registry.entries && s.turns[t].registry.entries[id] == Reg.Exec(x)
    ensures Inv(WithRegistry(s, t, r'))
  {
    var s' := WithRegistry(s, t, r');
    forall x ensures Placed(s', x) && Guarded(s', x) && Listed(s', x) && GuardOf(s', x) == GuardOf(s, x) {
      assert Placed(s, x) && Guarded(s, x) && Listed(s, x);
    }
    forall u, id ensures EntryOwned(s', u, id) {
      assert EntryOwned(s, u, id);
    }
    forall k ensures SweepOk(s', k) { assert SweepOk(s, k); }
  }

  // --------------------------------------------------------- compound steps

  lemma FirstPollKeepsInv(s: State, sid: Sid, late: bool)
    requires Inv(s) && Enabled(s, FirstPoll(sid, late))
    ensures Inv(Apply(s, FirstPoll(sid, late)))
  {
    var next := if late then Polling else if TokenSet(s, sid) then Stopping else Parked;
    GotoKeepsInv(s, sid, next);
  }

  lemma DropCommandKeepsInv(s: State, sid: Sid)
    requires Inv(s) && Enabled(s, DropCommand(sid))
    ensures Inv(Apply(s, DropCommand(sid)))
  {
    if s.commands[sid].pc.Spawned? {
      AbandonKeepsInv(s, sid);
    } else {
      GotoKeepsInv(s, sid, Done);
    }
  }

  lemma RunStopTaskKeepsInv(s: State, sid: Sid)
    requires Inv(s) && Enabled(s, RunStopTask(sid))
    ensures Inv(Apply(s, RunStopTask(sid)))
  {
    var s1 := s.(stopTasks := s.stopTasks - multiset{sid});
    forall k ensures SweepOk(s1, k) { assert SweepOk(s, k); }
    SweepStepKeepsInv(s, s1);
    TakeKeepsInv(s1, sid);
  }

  lemma SweepingKeepsInv(s: State, a: Action)
    requires Inv(s) && Enabled(s, a) && SweepStep(a)
    ensures Inv(Apply(s, a))
  {
    forall j ensures SweepOk(Apply(s, a), j) { assert SweepOk(s, j); }
    SweepStepKeepsInv(s, Apply(s, a));
  }

  // ------------------------------------------------- registering and releasing

  lemma RegisterKeepsInv(s: State, sid: Sid)
    requires Inv(s) && Enabled(s, RegisterExec(sid))
    ensures Inv(Apply(s, RegisterExec(sid)))
  {
    var s' := Apply(s, RegisterExec(sid));
    assert Placed(s, sid) && Guarded(s, sid) && Listed(s, sid);
    RegisterPlaced(s, sid);
    if s.commands[sid].turn.None? {
      SameGuardsKeepInv(s, s');
    } else {
      var t := s.commands[sid].turn.value;
      var r := s.turns[t].registry;
      Reg.StepKeepsInv(r, Reg.Register(Reg.Exec(sid)));
      RegisterListed(s, sid, t);
    }
  }

  lemma RegisterPlaced(s: State, sid: Sid)
    requires Inv(s) && Enabled(s, RegisterExec(sid))
    ensures var s' := Apply(s, RegisterExec(sid));
            && (forall x :: Placed(s', x) && Guarded(s', x))
            && (forall x :: x != sid || s.commands[sid].turn.None? ==> GuardOf(s', x) == GuardOf(s, x))
            && (forall k :: SweepOk(s', k))
  {
    var s' := Apply(s, RegisterExec(sid));
    forall x
      ensures Placed(s', x) && Guarded(s', x)
      ensures x != sid || s.commands[sid].turn.None? ==> GuardOf(s', x) == GuardOf(s, x)
    {
      assert Placed(s, x) && Guarded(s, x);
    }
    forall k ensures SweepOk(s', k) { assert SweepOk(s, k); }
  }

  lemma RegisterListed(s: State, sid: Sid, t: Turn)
    requires Inv(s) && Enabled(s, RegisterExec(sid)) && s.commands[sid].turn == Some(t)
    ensures var s' := Apply(s, RegisterExec(sid));
            (forall x :: Listed(s', x)) && forall u, id :: EntryOwned(s', u, id)
  {
    var s' := Apply(s, RegisterExec(sid));
    var next := s.turns[t].registry.nextId;
    assert Placed(s, sid);
    RegisterPlaced(s, sid);
    assert GuardOf(s', sid) == Some(Guard(t, next));
    forall x ensures Listed(s', x) {
      assert Listed(s, x);
    }
    forall u, id ensures EntryOwned(s', u, id) {
      assert EntryOwned(s, u, id) && Listed(s, sid);
    }
  }

  lemma DropGuardKeepsInv(s: State, sid: Sid)
    requires Inv(s) && Enabled(s, DropGuard(sid))
    ensures Inv(Apply(s, DropGuard(sid)))
  {
    var s' := Apply(s, DropGuard(sid));
    var g := s.dropping[sid];
    assert Placed(s, sid) && Listed(s, sid);
    forall x ensures Placed(s', x) && Guarded(s', x) && (x != sid ==> GuardOf(s', x) == GuardOf(s, x)) {
      assert Placed(s, x) && Guarded(s, x);
    }
    forall k ensures SweepOk(s', k) { assert SweepOk(s, k); }
    Reg.StepKeepsInv(s.turns[g.turn].registry, Reg.Remove(g.id));
    DropGuardListed(s, sid);
  }

  lemma DropGuardListed(s: State, sid: Sid)
    requires Inv(s) && Enabled(s, DropGuard(sid))
    ensures var s' := Apply(s, DropGuard(sid));
            (forall x :: Listed(s', x)) && forall u, id :: EntryOwned(s', u, id)
  {
    var s' := Apply(s, DropGuard(sid));
    var g := s.dropping[sid];
    assert Placed(s, sid) && Listed(s, sid);
    assert GuardOf(s, sid) == Some(g) && GuardOf(s', sid) == None;
    forall x ensures Listed(s', x) {
      assert Listed(s, x);
    }
    forall u, id ensures EntryOwned(s', u, id) {
      assert EntryOwned(s, u, id) && EntryOwned(s, g.turn, g.id);
    }
  }
}
