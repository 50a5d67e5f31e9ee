/**
  Progress of a cancelled turn: as long as an exec entry is left and no session is exposed, one of
  the steps the cancellation itself set off is possible and brings the turn nearer to idle, and
  nothing else takes it back.
 */
module ExecProgress {
  import opened Basics
  import opened ExecSessions
  import opened ExecFrames
  import opened ExecTheorems
  import opened ExecAccounting
  import Reg = TurnRegistry

  // -------------------------------------------------------------------- the measure

  function CallsOf(s: State, t: Turn): set<Sid> {
    set sid | sid in s.commands && OfTurn(s, t, sid)
  }

  ghost function Total(s: State, t: Turn, ids: set<Sid>): nat {
    if ids == {} then 0 else
      var x :| x in ids;
      Rank(s, t, x) + Total(s, t, ids - {x})
  }

  /** The steps all sessions of the turn together are away from their release. */
  ghost function Work(s: State, t: Turn): nat {
    Total(s, t, CallsOf(s, t))
  }

  lemma {:induction false} TotalWithout(s: State, t: Turn, ids: set<Sid>, x: Sid)
    requires x in ids
    ensures Total(s, t, ids) == Rank(s, t, x) + Total(s, t, ids - {x})
  {
    hide Rank;
    var y :| y in ids && Total(s, t, ids) == Rank(s, t, y) + Total(s, t, ids - {y});
    if x != y {
      TotalWithout(s, t, ids - {y}, x);
      TotalWithout(s, t, ids - {x}, y);
      assert ids - {y} - {x} == ids - {x} - {y};
    }
  }

  lemma {:induction false} TotalFalls(s: State, s': State, t: Turn, ids: set<Sid>)
    requires forall x :: x in ids ==> Rank(s', t, x) <= Rank(s, t, x)
    ensures Total(s', t, ids) <= Total(s, t, ids)
    ensures (exists x :: x in ids && Rank(s', t, x) < Rank(s, t, x)) ==> Total(s', t, ids) < Total(s, t, ids)
  {
    hide Rank;
    if ids != {} {
      var y :| y in ids;
      TotalWithout(s, t, ids, y);
      TotalWithout(s', t, ids, y);
      TotalFalls(s, s', t, ids - {y});
      if x :| x in ids && Rank(s', t, x) < Rank(s, t, x) {
        assert x == y || x in ids - {y};
      }
    }
  }

  lemma NewCallHasNoRank(s: State, owner: Option<Turn>, t: Turn)
    requires Inv(s) && Enabled(s, Begin(owner))
    ensures Rank(Apply(s, Begin(owner)), t, s.nextId) == 0
  {
    assert Placed(s, s.nextId);
  }

  lemma CallsAfter(s: State, a: Action, t: Turn)
    requires Inv(s) && Enabled(s, a)
    ensures CallsOf(Apply(s, a), t) - {s.nextId} == CallsOf(s, t) - {s.nextId}
    ensures !a.Begin? ==> CallsOf(Apply(s, a), t) == CallsOf(s, t)
    ensures s.nextId !in CallsOf(s, t)
  {
    hide Apply, Enabled;
    StepKeepsTurns(s, a);
    assert Placed(s, s.nextId);
  }

  /**
    No step of anybody raises the work of a cancelled turn, except a call of the turn that only now
    registers, and the three events.
   */
  lemma WorkNeverRises(s: State, a: Action, t: Turn)
    requires Inv(s) && Enabled(s, a) && Cancelled(s, t)
    requires forall x :: OfTurn(s, t, x) ==> !Hits(s, a, x) && a != RegisterExec(x)
    ensures Work(Apply(s, a), t) <= Work(s, t)
    ensures (exists x :: OfTurn(s, t, x) && Rank(Apply(s, a), t, x) < Rank(s, t, x)) ==> Work(Apply(s, a), t) < Work(s, t)
  {
    hide Inv, Enabled, Apply, Rank, Total, Hits;
    var s' := Apply(s, a);
    forall x | x in CallsOf(s, t)
      ensures Rank(s', t, x) <= Rank(s, t, x)
    {
      StepKeepsRank(s, a, t, x);
    }
    assert forall x :: OfTurn(s, t, x) <==> x in CallsOf(s, t);
    TotalFalls(s, s', t, CallsOf(s, t));
    CallsAfter(s, a, t);
    assert CallsOf(s, t) - {s.nextId} == CallsOf(s, t);
    if s.nextId in CallsOf(s', t) {
      NewCallHasNoRank(s, a.owner, t);
      TotalWithout(s', t, CallsOf(s', t), s.nextId);
    } else {
      assert CallsOf(s', t) - {s.nextId} == CallsOf(s', t);
    }
  }

  // ------------------------------------------------------------------ a helpful step

  /** Steps of the turn's calls, stop tasks, sweeps, terminations and guards, and of its waiters and notifications. */
  predicate OwnStep(s: State, a: Action, t: Turn) {
    || ((a.Spawn? || a.Insert? || a.FirstPoll? || a.StopRemove? || a.RunStopTask? || a.TerminateDone? || a.DropGuard?)
        && OfTurn(s, t, a.sid))
    || ((a.Snapshot? || a.RunCanceller?) && a.sweep in s.sweeps && s.sweeps[a.sweep].turn == t)
    || (a.Registry? && a.turn == t && (a.step.Notify? || a.step.Count? || a.step.Decide? || a.step.Wake?))
  }

  ghost predicate Helps(s: State, a: Action, t: Turn, x: Sid) {
    && Enabled(s, a) && OwnStep(s, a, t) && !a.Registry?
    && (forall y :: !Hits(s, a, y)) && Rank(Apply(s, a), t, x) < Rank(s, t, x)
  }

  lemma OwnedIsOfTurn(s: State, t: Turn, x: Sid)
    requires Inv(s) && x in Owned(s, t)
    ensures OfTurn(s, t, x) && GuardOf(s, x).Some? && Rank(s, t, x) > 0
  {
    OwnedHasGuard(s, t, x);
    assert Placed(s, x) && Listed(s, x);
  }

  lemma HelpBeforeInsert(s: State, t: Turn, x: Sid) returns (a: Action)
    requires Inv(s) && Cancelled(s, t) && OfTurn(s, t, x) && HoldsGuard(s, x)
    ensures Helps(s, a, t, x)
  {
    assert Placed(s, x);
    a := if At(s, x, Registered) then Spawn(x, true) else Insert(x);
  }

  lemma HelpInTable(s: State, t: Turn, x: Sid) returns (a: Action)
    requires Inv(s) && Cancelled(s, t) && OfTurn(s, t, x) && x in s.sessions
    requires At(s, x, Stopping) || x in s.stopTasks || At(s, x, Inserted)
    ensures Helps(s, a, t, x)
  {
    assert Placed(s, x);
    a := if At(s, x, Stopping) then StopRemove(x) else if x in s.stopTasks then RunStopTask(x) else FirstPoll(x, false);
  }

  lemma HelpByCanceller(s: State, t: Turn, x: Sid, k: nat)
    requires OfTurn(s, t, x) && x in s.sessions && WillAsk(s, k, t, x) && Rank(s, t, x) == 4
    ensures Helps(s, RunCanceller(k, x, true), t, x)
  {
    assert x in Apply(s, RunCanceller(k, x, true)).stopTasks;
  }

  lemma HelpBySnapshot(s: State, t: Turn, x: Sid, k: nat)
    requires Inv(s) && OfTurn(s, t, x) && x in s.sessions && WillSnapshot(s, k, t) && Rank(s, t, x) == 5
    ensures Helps(s, Snapshot(k), t, x)
  {
    assert SweepOk(s, k);
    InSnapshot(s, t, x);
    assert WillAsk(Apply(s, Snapshot(k)), k, t, x);
  }

  lemma HelpTerminating(s: State, t: Turn, x: Sid)
    requires Inv(s) && OfTurn(s, t, x) && x in s.terminating
    ensures Helps(s, TerminateDone(x), t, x)
  {
    assert Placed(s, x) && Guarded(s, x);
  }

  lemma HelpDropping(s: State, t: Turn, x: Sid)
    requires Inv(s) && OfTurn(s, t, x) && x in s.dropping
    ensures Helps(s, DropGuard(x), t, x)
  {
    assert Placed(s, x) && Listed(s, x);
  }

  lemma HelpfulStep(s: State, t: Turn, x: Sid) returns (a: Action)
    requires Inv(s) && Cancelled(s, t) && x in Owned(s, t) && !Exposed(s, t, x)
    ensures Helps(s, a, t, x)
  {
    OwnedIsOfTurn(s, t, x);
    assert Placed(s, x);
    if x in s.terminating {
      HelpTerminating(s, t, x);
      a := TerminateDone(x);
    } else if x in s.dropping {
      HelpDropping(s, t, x);
      a := DropGuard(x);
    } else if x !in s.sessions {
      a := HelpBeforeInsert(s, t, x);
    } else if Rank(s, t, x) == 5 {
      var k :| WillSnapshot(s, k, t);
      HelpBySnapshot(s, t, x, k);
      a := Snapshot(k);
    } else if At(s, x, Stopping) || x in s.stopTasks || At(s, x, Inserted) {
      a := HelpInTable(s, t, x);
    } else {
      var k :| WillAsk(s, k, t, x);
      HelpByCanceller(s, t, x, k);
      a := RunCanceller(k, x, true);
    }
  }

  ghost predicate NoneExposed(s: State, t: Turn) {
    forall x :: !Exposed(s, t, x)
  }

  lemma EntryHasOwner(s: State, t: Turn) returns (x: Sid)
    requires Inv(s) && t in s.turns && ExecEntries(s, t) != {}
    ensures x in Owned(s, t)
  {
    var id :| id in ExecEntries(s, t);
    assert EntryOwned(s, t, id);
    x := s.turns[t].registry.entries[id].session;
    OwnedHasGuard(s, t, x);
  }

  /**
    Progress: in a cancelled turn with an exec entry left and no session exposed, some step of the
    turn's own is enabled, it lowers the work, and again no session is exposed.
   */
  lemma Progress(s: State, t: Turn) returns (a: Action)
    requires Inv(s) && Cancelled(s, t) && ExecEntries(s, t) != {} && NoneExposed(s, t)
    ensures Enabled(s, a) && OwnStep(s, a, t) && !a.Registry?
    ensures Work(Apply(s, a), t) < Work(s, t) && NoneExposed(Apply(s, a), t)
  {
    hide Inv, Enabled, Apply, Rank, Work, Exposed, Hits, Owned;
    var x := EntryHasOwner(s, t);
    OwnedIsOfTurn(s, t, x);
    a := HelpfulStep(s, t, x);
    WorkNeverRises(s, a, t);
    forall y ensures !Exposed(Apply(s, a), t, y) {
      if Exposed(Apply(s, a), t, y) {
        StepExposes(s, a, t, y);
      }
    }
  }

  // ----------------------------------------------------------------- up to idle

  /** Some other owner of a resource of the turn, a tool call of the agent loop say, lets go of it. */
  predicate LetsGo(a: Action, t: Turn) {
    a.Registry? && a.turn == t && a.step.Remove?
  }

  /** A run of the turn's own steps, and of other owners letting go if `others`. */
  predicate OwnRun(s: State, steps: seq<Action>, t: Turn, others: bool)
    requires ValidRun(s, steps)
  {
    steps == [] ||
    (var front, last := steps[..|steps| - 1], steps[|steps| - 1];
     OwnRun(s, front, t, others) && (OwnStep(Run(s, front), last, t) || (others && LetsGo(last, t))))
  }

  lemma {:induction false} StepFirst(s: State, a: Action, rest: seq<Action>, t: Turn, others: bool)
    requires Enabled(s, a) && (OwnStep(s, a, t) || (others && LetsGo(a, t)))
    requires ValidRun(Apply(s, a), rest) && OwnRun(Apply(s, a), rest, t, others)
    ensures ValidRun(s, [a] + rest) && OwnRun(s, [a] + rest, t, others)
    ensures Run(s, [a] + rest) == Run(Apply(s, a), rest)
  {
    hide Enabled, Apply, OwnStep, LetsGo;
    if rest == [] {
      assert [a] + rest == [a] && [a][..0] == [];
      assert ValidRun(s, []) && Run(s, []) == s;
      assert ValidRun(s, [a]);
    } else {
      var front := rest[..|rest| - 1];
      StepFirst(s, a, front, t, others);
      assert ([a] + rest)[..|rest|] == [a] + front;
    }
  }

  /**
    Whatever else is registered: from every state of the protocol in which the turn is cancelled and
    no session of it is exposed, steps of the turn's own lead to a state with no exec entry left.
   */
  lemma {:induction false} CancelledTurnIsReleased(s: State, t: Turn) returns (steps: seq<Action>)
    requires Inv(s) && Cancelled(s, t) && NoneExposed(s, t)
    ensures ValidRun(s, steps) && OwnRun(s, steps, t, false)
    ensures t in Run(s, steps).turns && ExecEntries(Run(s, steps), t) == {}
    decreases Work(s, t)
  {
    hide Inv, Enabled, Apply, Work, NoneExposed, OwnStep, ExecEntries;
    if ExecEntries(s, t) == {} {
      return [];
    }
    var a := Progress(s, t);
    StepKeepsInv(s, a);
    StepKeepsTokens(s, a);
    var rest := CancelledTurnIsReleased(Apply(s, a), t);
    StepFirst(s, a, rest, t, false);
    steps := [a] + rest;
  }

  predicate OnlyExec(s: State, t: Turn)
    requires t in s.turns
  {
    forall id :: id in s.turns[t].registry.entries ==> s.turns[t].registry.entries[id].Exec?
  }

  /** A wait on the turn that was not told otherwise; unless others may let go, only exec sessions are registered. */
  ghost predicate Waits(s: State, t: Turn, w: nat, others: bool) {
    && t in s.turns && w in s.turns[t].registry.waiters
    && Reg.StillWaits(s.turns[t].registry.waiters[w].pc)
    && (others || OnlyExec(s, t))
  }

  lemma OwnStepKeepsWaits(s: State, a: Action, t: Turn, w: nat, others: bool)
    requires Enabled(s, a) && OwnStep(s, a, t) && !a.Registry? && Waits(s, t, w, others)
    ensures Waits(Apply(s, a), t, w, others)
  {
    if a.DropGuard? {
    } else {
      UntouchedTurns(s, a);
    }
  }

  /** With no exec entry left: another owner lets go, a notification that is due, or the waiter's own next step. */
  ghost function WaitStep(s: State, t: Turn, w: nat): Action
    requires t in s.turns && w in s.turns[t].registry.waiters
  {
    var r := s.turns[t].registry;
    if r.entries != map[] then
      var id :| id in r.entries;
      Registry(t, Reg.Remove(id))
    else if r.releasing != {} then
      var id :| id in r.releasing;
      Registry(t, Reg.Notify(id))
    else Registry(t, Reg.NextStep(w, r.waiters[w].pc))
  }

  ghost function WaitLeft(s: State, t: Turn, w: nat): nat
    requires t in s.turns && w in s.turns[t].registry.waiters
  {
    Reg.StepsLeft(s.turns[t].registry.waiters[w].pc)
  }

  lemma WaitProgress(s: State, t: Turn, w: nat, others: bool)
    requires Inv(s) && Cancelled(s, t) && Waits(s, t, w, others) && ExecEntries(s, t) == {} && NoneExposed(s, t)
    requires !s.turns[t].registry.waiters[w].pc.Returned?
    ensures var a := WaitStep(s, t, w);
            && Enabled(s, a) && (OwnStep(s, a, t) || (others && LetsGo(a, t)))
            && Waits(Apply(s, a), t, w, others) && NoneExposed(Apply(s, a), t)
            && Work(Apply(s, a), t) <= Work(s, t)
            && Fewer(s, Apply(s, a), t, w)
  {
    hide Inv, Enabled, Apply, Work, NoneExposed, OwnStep, Fewer;
    var r := s.turns[t].registry;
    var a := WaitStep(s, t, w);
    if r.entries != map[] {
      PassiveLetsGo(s, t, a.step.id, w, others);
    } else if r.releasing != {} {
      NotificationComes(s, t, a.step.id, w, others);
    } else {
      WaiterMoves(s, t, w, others);
    }
    WaitStepKeeps(s, a, t);
  }

  lemma NotificationComes(s: State, t: Turn, id: nat, w: nat, others: bool)
    requires Waits(s, t, w, others) && id in s.turns[t].registry.releasing
    ensures var a := Registry(t, Reg.Notify(id));
            Enabled(s, a) && OwnStep(s, a, t) && Waits(Apply(s, a), t, w, others) && Fewer(s, Apply(s, a), t, w)
  {
    var r := s.turns[t].registry;
    assert |r.releasing - {id}| < |r.releasing|;
  }

  lemma WaiterMoves(s: State, t: Turn, w: nat, others: bool)
    requires Inv(s) && Waits(s, t, w, others) && !s.turns[t].registry.waiters[w].pc.Returned?
    requires s.turns[t].registry.entries == map[] && s.turns[t].registry.releasing == {}
    ensures var a := Registry(t, Reg.NextStep(w, s.turns[t].registry.waiters[w].pc));
            Enabled(s, a) && OwnStep(s, a, t) && Waits(Apply(s, a), t, w, others) && Fewer(s, Apply(s, a), t, w)
  {
    Reg.FinishingStep(s.turns[t].registry, w);
  }

  lemma PassiveLetsGo(s: State, t: Turn, id: nat, w: nat, others: bool)
    requires Waits(s, t, w, others) && ExecEntries(s, t) == {} && id in s.turns[t].registry.entries
    ensures var a := Registry(t, Reg.Remove(id));
            && Enabled(s, a) && others && Waits(Apply(s, a), t, w, others) && Fewer(s, Apply(s, a), t, w)
  {
    var r := s.turns[t].registry;
    assert id !in ExecEntries(s, t);
    assert (r.entries - {id}).Keys == r.entries.Keys - {id};
    assert |r.entries - {id}| == |(r.entries - {id}).Keys|;
  }

  ghost predicate Fewer(s: State, s': State, t: Turn, w: nat) {
    && t in s.turns && t in s'.turns && w in s.turns[t].registry.waiters && w in s'.turns[t].registry.waiters
    && var r, r' := s.turns[t].registry, s'.turns[t].registry;
       || |r'.entries| < |r.entries|
       || (r'.entries == r.entries && |r'.releasing| < |r.releasing|)
       || (r'.entries == r.entries && r'.releasing == r.releasing && WaitLeft(s', t, w) < WaitLeft(s, t, w))
  }

  lemma WaitStepKeeps(s: State, a: Action, t: Turn)
    requires Inv(s) && Cancelled(s, t) && NoneExposed(s, t) && a.Registry? && Enabled(s, a)
    ensures NoneExposed(Apply(s, a), t) && Work(Apply(s, a), t) <= Work(s, t)
  {
    hide Inv, Enabled, Apply, Rank, Work, Exposed;
    WorkNeverRises(s, a, t);
    forall y ensures !Exposed(Apply(s, a), t, y) {
      if Exposed(Apply(s, a), t, y) {
        StepExposes(s, a, t, y);
      }
    }
  }

  /**
    So `cancel_and_wait` gets there: from every state of the protocol in which the turn is cancelled
    and no session of it is exposed, steps of the turn's own lead to the waiter's report that it is
    idle, unless its timer fires first. Only the owners of other resources have to let go of theirs;
    with none of those registered nobody else is needed.
   */
  lemma {:induction false} CancelledTurnBecomesIdle(s: State, t: Turn, w: nat, others: bool) returns (steps: seq<Action>)
    requires Inv(s) && Cancelled(s, t) && NoneExposed(s, t) && Waits(s, t, w, others)
    ensures ValidRun(s, steps) && OwnRun(s, steps, t, others)
    ensures t in Run(s, steps).turns && w in Run(s, steps).turns[t].registry.waiters
    ensures Run(s, steps).turns[t].registry.waiters[w].pc == Reg.Returned(true)
    decreases Work(s, t), |s.turns[t].registry.entries|, |s.turns[t].registry.releasing|, WaitLeft(s, t, w)
  {
    hide Inv, Enabled, Apply, Work, NoneExposed, OwnStep, LetsGo, ExecEntries, WaitStep, OnlyExec;
    if s.turns[t].registry.waiters[w].pc.Returned? {
      return [];
    }
    var a;
    if ExecEntries(s, t) != {} {
      a := Progress(s, t);
      OwnStepKeepsWaits(s, a, t, w, others);
    } else {
      a := WaitStep(s, t, w);
      WaitProgress(s, t, w, others);
    }
    StepKeepsInv(s, a);
    StepKeepsTokens(s, a);
    var rest := CancelledTurnBecomesIdle(Apply(s, a), t, w, others);
    StepFirst(s, a, rest, t, others);
    steps := [a] + rest;
  }
}
