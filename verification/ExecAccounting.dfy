/**
  Guard conservation in the exec-session protocol: the registry's exec entries are exactly the
  sessions some owner still holds, so observing an idle turn means its processes are gone.
 */
module ExecAccounting {
  import opened Basics
  import opened ExecSessions
  import opened ExecFrames
  import opened ExecTheorems
  import Reg = TurnRegistry

  function ExecEntries(s: State, t: Turn): set<nat>
    requires t in s.turns
  {
    set id | id in s.turns[t].registry.entries && s.turns[t].registry.entries[id].Exec?
  }

  /** Calls that hold their guard themselves: registered, not yet in the table. */
  function InFlight(s: State, t: Turn): set<Sid> {
    set sid | sid in s.commands && HoldsGuard(s, sid) && s.commands[sid].turn == Some(t)
  }

  function InTable(s: State, t: Turn): set<Sid> {
    set sid | sid in s.sessions && s.sessions[sid].owner == Some(t)
  }

  function Terminating(s: State, t: Turn): set<Sid> {
    set sid | sid in s.terminating && s.terminating[sid].owner == Some(t)
  }

  /** Killed or dropped, the entry about to be removed. */
  function Dropping(s: State, t: Turn): set<Sid> {
    set sid | sid in s.dropping && s.dropping[sid].turn == t
  }

  function Owned(s: State, t: Turn): set<Sid> {
    InFlight(s, t) + InTable(s, t) + Terminating(s, t) + Dropping(s, t)
  }

  lemma OwnedDisjoint(s: State, t: Turn)
    requires Inv(s)
    ensures |Owned(s, t)| == |InFlight(s, t)| + |InTable(s, t)| + |Terminating(s, t)| + |Dropping(s, t)|
  {
    forall sid
      ensures sid in InFlight(s, t) ==> sid !in InTable(s, t) && sid !in Terminating(s, t) && sid !in Dropping(s, t)
      ensures sid in InTable(s, t) ==> sid !in Terminating(s, t) && sid !in Dropping(s, t)
      ensures sid in Terminating(s, t) ==> sid !in Dropping(s, t)
    {
      assert Placed(s, sid);
    }
    SizeOfUnion(InFlight(s, t), InTable(s, t), Terminating(s, t), Dropping(s, t));
  }

  lemma SizeOfUnion(a: set<Sid>, b: set<Sid>, c: set<Sid>, d: set<Sid>)
    requires forall x :: x in a ==> x !in b && x !in c && x !in d
    requires forall x :: x in b ==> x !in c && x !in d
    requires forall x :: x in c ==> x !in d
    ensures |a + b + c + d| == |a| + |b| + |c| + |d|
  {
    assert a !! b && a + b !! c && a + b + c !! d;
  }

  /** An owned session is exactly one whose guard is held for this turn. */
  lemma OwnedHasGuard(s: State, t: Turn, sid: Sid)
    requires Inv(s)
    ensures sid in Owned(s, t) <==> GuardOf(s, sid).Some? && GuardOf(s, sid).value.turn == t
  {
    assert Placed(s, sid) && Guarded(s, sid) && Listed(s, sid);
  }

  lemma {:induction false} InjectiveValues(m: map<nat, nat>)
    requires forall x, y :: x in m && y in m && m[x] == m[y] ==> x == y
    ensures |m.Values| == |m|
    decreases |m|
  {
    if m != map[] {
      var x :| x in m;
      var rest := m - {x};
      InjectiveValues(rest);
      assert m.Keys == rest.Keys + {x};
      assert m.Values == rest.Values + {m[x]} by {
        forall v | v in m.Values ensures v in rest.Values + {m[x]} {
          var y :| y in m && m[y] == v;
          if y != x {
            assert y in rest && rest[y] == v;
          }
        }
      }
      assert m[x] !in rest.Values;
    } else {
      assert m.Values == {};
    }
  }

  /**
    Conservation: a turn's exec entries number the calls in flight before insert, plus its
    sessions in the table, plus those terminating, plus those whose guard is just being dropped.
   */
  lemma Conservation(s: State, t: Turn)
    requires Inv(s) && t in s.turns
    ensures |ExecEntries(s, t)| == |InFlight(s, t)| + |InTable(s, t)| + |Terminating(s, t)| + |Dropping(s, t)|
  {
    hide Inv, InFlight, InTable, Terminating, Dropping, Owned, ExecEntries, GuardOf;
    OwnedDisjoint(s, t);
    forall sid ensures sid in Owned(s, t) <==> GuardOf(s, sid).Some? && GuardOf(s, sid).value.turn == t {
      OwnedHasGuard(s, t, sid);
    }
    var ids := map sid | sid in Owned(s, t) :: GuardOf(s, sid).value.id;
    EntriesOfGuards(s, t, ids);
    InjectiveValues(ids);
    assert ids.Keys == Owned(s, t);
  }

  lemma EntriesOfGuards(s: State, t: Turn, ids: map<nat, nat>)
    requires Inv(s) && t in s.turns
    requires forall sid :: sid in ids <==> GuardOf(s, sid).Some? && GuardOf(s, sid).value.turn == t
    requires forall sid :: sid in ids ==> ids[sid] == GuardOf(s, sid).value.id
    ensures ids.Values == ExecEntries(s, t)
    ensures forall x, y :: x in ids && y in ids && ids[x] == ids[y] ==> x == y
  {
    var entries := s.turns[t].registry.entries;
    forall sid | sid in ids ensures ids[sid] in entries && entries[ids[sid]] == Reg.Exec(sid) {
      assert Listed(s, sid);
    }
    forall id | id in ExecEntries(s, t) ensures id in ids.Values {
      assert EntryOwned(s, t, id);
      assert ids[entries[id].session] == id;
    }
  }

  lemma OwnedInEntries(s: State, t: Turn, sid: Sid)
    requires Inv(s) && t in s.turns && sid in Owned(s, t)
    ensures exists id :: id in ExecEntries(s, t)
  {
    OwnedHasGuard(s, t, sid);
    assert Listed(s, sid);
    assert GuardOf(s, sid).value.id in ExecEntries(s, t);
  }

  /** With no exec entry left, no process of the turn is alive and no owner holds a session of it. */
  lemma EmptyMeansTerminated(s: State, t: Turn)
    requires Inv(s) && t in s.turns && ExecEntries(s, t) == {}
    ensures Owned(s, t) == {}
    ensures forall sid :: sid in s.alive ==> sid in s.commands && s.commands[sid].turn != Some(t)
  {
    forall sid ensures sid !in Owned(s, t) {
      if sid in Owned(s, t) {
        OwnedInEntries(s, t, sid);
      }
    }
    forall sid | sid in s.alive ensures sid in s.commands && s.commands[sid].turn != Some(t) {
      assert Placed(s, sid) && sid !in Owned(s, t);
    }
  }

  // ------------------------------------------------------------ observed idleness

  /** A waiter that reports idle was waiting at some instant when the registry was empty. */
  lemma {:induction false} IdleWasEmpty(s: State, actions: seq<Action>, t: Turn, w: nat) returns (k: nat)
    requires ValidRun(s, actions) && t in s.turns && w !in s.turns[t].registry.waiters
    requires t in Run(s, actions).turns && Reg.SawIdle(Run(s, actions).turns[t].registry, w)
    ensures k <= |actions| && ValidRun(s, actions[..k]) && t in Run(s, actions[..k]).turns
    ensures var r := Run(s, actions[..k]).turns[t].registry; w in r.waiters && r.entries == map[]
  {
    var n := |actions| - 1;
    var front := actions[..n];
    var before := Run(s, front);
    var last := actions[n];
    if last.Registry? && last.turn == t {
      Reg.SawIdleStep(before.turns[t].registry, last.step, w);
      if !Reg.SawIdle(before.turns[t].registry, w) {
        return n;
      }
    } else {
      OnlyRegistryStepsMoveWaiters(before, last, t);
    }
    k := IdleWasEmpty(s, front, t, w);
    assert front[..k] == actions[..k];
  }

  /** A waiter on a turn that reports busy was waiting at some instant when the turn's registry was not empty. */
  lemma {:induction false} BusyWasBusy(s: State, actions: seq<Action>, t: Turn, w: nat) returns (k: nat)
    requires ValidRun(s, actions) && t in s.turns && w !in s.turns[t].registry.waiters
    requires t in Run(s, actions).turns && Reg.SawBusy(Run(s, actions).turns[t].registry, w)
    ensures k <= |actions| && ValidRun(s, actions[..k]) && t in Run(s, actions[..k]).turns
    ensures var r := Run(s, actions[..k]).turns[t].registry; w in r.waiters && r.entries != map[]
  {
    hide Apply, Enabled;
    var n := |actions| - 1;
    var front := actions[..n];
    var before := Run(s, front);
    var last := actions[n];
    if last.Registry? && last.turn == t {
      RegistryStepShows(before, t, last.step);
      Reg.SawBusyStep(before.turns[t].registry, last.step, w);
      if !Reg.SawBusy(before.turns[t].registry, w) {
        return n;
      }
    } else {
      OnlyRegistryStepsMoveWaiters(before, last, t);
    }
    k := BusyWasBusy(s, front, t, w);
    assert front[..k] == actions[..k];
  }

  lemma RegistryStepShows(s: State, t: Turn, step: Reg.Action)
    requires Enabled(s, Registry(t, step))
    ensures t in s.turns && Reg.Enabled(s.turns[t].registry, step)
    ensures t in Apply(s, Registry(t, step)).turns
    ensures Apply(s, Registry(t, step)).turns[t].registry == Reg.Apply(s.turns[t].registry, step)
  {
  }

  /**
    Idle means terminated: when a wait on a turn reports idle, there was an instant during the
    wait at which every process of the turn had been terminated or dropped, no session of the
    turn was in the table, and none of its calls was between registration and insert.
   */
  lemma IdleMeansTerminated(turns: set<Turn>, actions: seq<Action>, t: Turn, w: nat) returns (k: nat)
    requires ValidRun(Init(turns), actions) && t in turns
    requires t in Run(Init(turns), actions).turns && Reg.SawIdle(Run(Init(turns), actions).turns[t].registry, w)
    ensures k <= |actions| && ValidRun(Init(turns), actions[..k])
    ensures var s := Run(Init(turns), actions[..k]);
            && t in s.turns && w in s.turns[t].registry.waiters
            && Owned(s, t) == {}
            && forall sid :: sid in s.alive ==> sid in s.commands && s.commands[sid].turn != Some(t)
  {
    k := IdleWasEmpty(Init(turns), actions, t, w);
    InitInv(turns);
    RunKeepsInv(Init(turns), actions[..k]);
    EmptyMeansTerminated(Run(Init(turns), actions[..k]), t);
  }

  /** The lost-wakeup guarantee of one registry holds for the registry of every turn of a run. */
  lemma {:induction false} NoWaiterOfAnyTurnIsLost(turns: set<Turn>, actions: seq<Action>, t: Turn, w: nat)
    requires ValidRun(Init(turns), actions)
    requires t in Run(Init(turns), actions).turns
    requires var r := Run(Init(turns), actions).turns[t].registry;
             w in r.waiters && r.waiters[w].pc.Parked? && r.entries == map[] && r.releasing == {}
    ensures Reg.Enabled(Run(Init(turns), actions).turns[t].registry, Reg.Wake(w))
  {
    InitInv(turns);
    RunKeepsInv(Init(turns), actions);
    var r := Run(Init(turns), actions).turns[t].registry;
    assert Reg.Inv(r) && Reg.WillBeWoken(r, r.waiters[w].pc);
  }
}
