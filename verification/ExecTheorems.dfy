/** What holds over every run of the exec-session protocol. */
module ExecTheorems {
  import opened Basics
  import opened ExecSessions
  import opened ExecInvariant
  import opened ExecFrames
  import Reg = TurnRegistry

  lemma StepKeepsInv(s: State, a: Action)
    requires Inv(s) && Enabled(s, a)
    ensures Inv(Apply(s, a))
  {
    match a
    case Begin(owner) => BeginKeepsInv(s, owner);
    case RegisterExec(sid) => RegisterKeepsInv(s, sid);
    case Spawn(sid, ok) => if ok { SpawnKeepsInv(s, sid); } else { AbandonKeepsInv(s, sid); }
    case Insert(sid) => InsertKeepsInv(s, sid);
    case FirstPoll(sid, late) => FirstPollKeepsInv(s, sid, late);
    case SeeToken(sid) => GotoKeepsInv(s, sid, Stopping);
    case TimerFires(sid) => GotoKeepsInv(s, sid, Polling);
    case StopRemove(sid) =>
      GotoKeepsInv(s, sid, Done);
      TakeKeepsInv(Goto(s, sid, Done), sid);
    case Poll(sid, exited) =>
      GotoKeepsInv(s, sid, Done);
      PollKeepsInv(Goto(s, sid, Done), sid, exited);
    case PollAgain(sid, exited) => PollKeepsInv(s, sid, exited);
    case DropCommand(sid) => DropCommandKeepsInv(s, sid);
    case StopAll => StopAllKeepsInv(s);
    case RunStopTask(sid) => RunStopTaskKeepsInv(s, sid);
    case TerminateDone(sid) => TerminateDoneKeepsInv(s, sid);
    case DropGuard(sid) => DropGuardKeepsInv(s, sid);
    case Registry(t, step) => OthersStepKeepsInv(s, t, step);
    case RunCanceller(_, _, _) => SweepingKeepsInv(s, a);
    case Cancel(_, _) => SweepingKeepsInv(s, a);
    case Cleanup(_, _) => SweepingKeepsInv(s, a);
    case Snapshot(_) => SweepingKeepsInv(s, a);
    case EndSweep(_) => SweepingKeepsInv(s, a);
  }

  lemma {:induction false} RunKeepsInv(s: State, actions: seq<Action>)
    requires Inv(s) && ValidRun(s, actions)
    ensures Inv(Run(s, actions))
  {
    if actions != [] {
      var front := actions[..|actions| - 1];
      RunKeepsInv(s, front);
      StepKeepsInv(Run(s, front), actions[|actions| - 1]);
    }
  }

  /** No id is drawn twice: in every run the next one is that of no call. */
  lemma {:induction false} IdsAreFresh(turns: set<Turn>, actions: seq<Action>)
    requires ValidRun(Init(turns), actions)
    ensures var s := Run(Init(turns), actions);
            s.nextId !in s.commands && s.nextId !in s.sessions && forall sid :: sid in s.commands ==> sid < s.nextId
  {
    InitInv(turns);
    RunKeepsInv(Init(turns), actions);
    var s := Run(Init(turns), actions);
    assert forall sid :: sid in s.commands ==> Placed(s, sid);
    assert Placed(s, s.nextId);
  }

  // ------------------------------------------- how far a session is from its release

  ghost predicate WillSnapshot(s: State, k: nat, t: Turn) {
    k in s.sweeps && s.sweeps[k].turn == t && s.sweeps[k].phase.Snapshotting?
  }

  ghost predicate WillAsk(s: State, k: nat, t: Turn, sid: Sid) {
    k in s.sweeps && s.sweeps[k].turn == t && s.sweeps[k].phase.Cancelling? && sid in s.sweeps[k].phase.rest
  }

  /** In the table, and nothing is bound to take it out; a parked call may still choose to, or not. */
  const STRANDED := 8

  /**
    How many steps a session of a cancelled turn `t` is from having its guard released; in the table,
    by the nearest of what is going to take it out: its own call, a stop task, a sweep.
   */
  ghost function Rank(s: State, t: Turn, sid: Sid): nat {
    if sid in s.sessions then
      if At(s, sid, Stopping) || sid in s.stopTasks then 3
      else if At(s, sid, Inserted) || exists k :: WillAsk(s, k, t, sid) then 4
      else if exists k :: WillSnapshot(s, k, t) then 5
      else STRANDED
    else if sid in s.terminating then 2
    else if sid in s.dropping then 1
    else if At(s, sid, Registered) then 7
    else if At(s, sid, Spawned) then 6
    else 0
  }

  predicate OfTurn(s: State, t: Turn, sid: Sid) {
    sid in s.commands && s.commands[sid].turn == Some(t)
  }

  predicate Cancelled(s: State, t: Turn) {
    t in s.turns && s.turns[t].cancelled
  }

  /**
    The three events that can take away what was going to stop a session: its select first polled
    when the yield time is over already, and the timer arm picked; its call dropped between choosing
    to stop and taking it out of the table; a canceller that cannot spawn its stop task.
   */
  predicate Hits(s: State, a: Action, sid: Sid) {
    || a == FirstPoll(sid, true)
    || (a == DropCommand(sid) && At(s, sid, Stopping))
    || (a.RunCanceller? && a.sid == sid && !a.spawned)
  }

  lemma UntouchedKeepsRank(s: State, s': State, t: Turn, x: Sid)
    requires Untouched(s, s', x) && s'.stopTasks[x] == s.stopTasks[x]
    requires forall k :: WillAsk(s, k, t, x) ==> WillAsk(s', k, t, x)
    requires forall k :: WillSnapshot(s, k, t) ==> WillSnapshot(s', k, t)
    ensures Rank(s', t, x) <= Rank(s, t, x)
  {
  }

  /** A step that moves one session keeps the ranks if it does not raise that session's. */
  lemma MoveKeepsRank(s: State, s': State, t: Turn, sid: Sid, x: Sid)
    requires MovesOnly(s, s', sid) && (x == sid ==> Rank(s', t, x) <= Rank(s, t, x))
    ensures Rank(s', t, x) <= Rank(s, t, x)
  {
    if x != sid {
      assert Untouched(s, s', x);
      UntouchedKeepsRank(s, s', t, x);
    }
  }

  lemma SweepsSame(s: State, s': State, t: Turn, x: Sid)
    requires s'.sweeps == s.sweeps
    ensures forall k :: WillAsk(s', k, t, x) <==> WillAsk(s, k, t, x)
    ensures forall k :: WillSnapshot(s', k, t) <==> WillSnapshot(s, k, t)
  {
  }

  lemma GotoKeepsRank(s: State, sid: Sid, pc: Pc, t: Turn, x: Sid)
    requires sid in s.commands && !BeforeInsert(pc) && !BeforeInsert(s.commands[sid].pc)
    requires pc == Stopping || s.commands[sid].pc == Parked || s.commands[sid].pc == Polling || sid !in s.sessions || x != sid
    ensures Rank(Goto(s, sid, pc), t, x) <= Rank(s, t, x)
  {
    SweepsSame(s, Goto(s, sid, pc), t, x);
    MoveKeepsRank(s, Goto(s, sid, pc), t, sid, x);
  }

  lemma FirstPollKeepsRank(s: State, sid: Sid, late: bool, t: Turn, x: Sid)
    requires Enabled(s, FirstPoll(sid, late)) && (x == sid ==> !late && TokenSet(s, x))
    ensures Rank(Apply(s, FirstPoll(sid, late)), t, x) <= Rank(s, t, x)
  {
    GotoKeepsRank(s, sid, Apply(s, FirstPoll(sid, late)).commands[sid].pc, t, x);
  }

  lemma StopRemoveKeepsRank(s: State, sid: Sid, t: Turn, x: Sid)
    requires Inv(s) && Enabled(s, StopRemove(sid))
    ensures Rank(Apply(s, StopRemove(sid)), t, x) <= Rank(s, t, x)
  {
    assert Placed(s, sid);
    SweepsSame(s, Apply(s, StopRemove(sid)), t, x);
    MoveKeepsRank(s, Apply(s, StopRemove(sid)), t, sid, x);
  }

  lemma PollTableKeepsRank(s: State, sid: Sid, exited: bool, t: Turn, x: Sid)
    requires Inv(s)
    ensures Rank(PollTable(s, sid, exited), t, x) <= Rank(s, t, x)
  {
    assert Placed(s, sid);
    SweepsSame(s, PollTable(s, sid, exited), t, x);
    MoveKeepsRank(s, PollTable(s, sid, exited), t, sid, x);
  }

  lemma PollKeepsRank(s: State, sid: Sid, exited: bool, t: Turn, x: Sid)
    requires Inv(s) && Enabled(s, Poll(sid, exited))
    ensures Rank(Apply(s, Poll(sid, exited)), t, x) <= Rank(s, t, x)
  {
    GotoKeepsInv(s, sid, Done);
    GotoKeepsRank(s, sid, Done, t, x);
    PollTableKeepsRank(Goto(s, sid, Done), sid, exited, t, x);
  }

  lemma DropCommandKeepsRank(s: State, sid: Sid, t: Turn, x: Sid)
    requires Inv(s) && Enabled(s, DropCommand(sid)) && !Hits(s, DropCommand(sid), x)
    ensures Rank(Apply(s, DropCommand(sid)), t, x) <= Rank(s, t, x)
  {
    if s.commands[sid].pc.Spawned? {
      AbandonKeepsRank(s, sid, t, x);
    } else {
      GotoKeepsRank(s, sid, Done, t, x);
    }
  }

  lemma AbandonKeepsRank(s: State, sid: Sid, t: Turn, x: Sid)
    requires Inv(s) && HoldsGuard(s, sid)
    ensures Rank(Abandon(s, sid), t, x) <= Rank(s, t, x)
  {
    assert Placed(s, sid);
    SweepsSame(s, Abandon(s, sid), t, x);
    MoveKeepsRank(s, Abandon(s, sid), t, sid, x);
  }

  lemma SpawnKeepsRank(s: State, sid: Sid, ok: bool, t: Turn, x: Sid)
    requires Inv(s) && Enabled(s, Spawn(sid, ok))
    ensures Rank(Apply(s, Spawn(sid, ok)), t, x) <= Rank(s, t, x)
  {
    if ok {
      assert Placed(s, sid);
      SweepsSame(s, Apply(s, Spawn(sid, ok)), t, x);
      MoveKeepsRank(s, Apply(s, Spawn(sid, ok)), t, sid, x);
    } else {
      AbandonKeepsRank(s, sid, t, x);
    }
  }

  lemma InsertKeepsRank(s: State, sid: Sid, t: Turn, x: Sid)
    requires Inv(s) && Enabled(s, Insert(sid)) && (x == sid ==> TokenSet(s, x))
    ensures Rank(Apply(s, Insert(sid)), t, x) <= Rank(s, t, x)
  {
    assert Placed(s, sid);
    SweepsSame(s, Apply(s, Insert(sid)), t, x);
    MoveKeepsRank(s, Apply(s, Insert(sid)), t, sid, x);
  }

  lemma TerminateDoneKeepsRank(s: State, sid: Sid, t: Turn, x: Sid)
    requires Inv(s) && Enabled(s, TerminateDone(sid))
    ensures Rank(Apply(s, TerminateDone(sid)), t, x) <= Rank(s, t, x)
  {
    assert Placed(s, sid);
    SweepsSame(s, Apply(s, TerminateDone(sid)), t, x);
    MoveKeepsRank(s, Apply(s, TerminateDone(sid)), t, sid, x);
  }

  lemma DropGuardKeepsRank(s: State, sid: Sid, t: Turn, x: Sid)
    requires Inv(s) && Enabled(s, DropGuard(sid))
    ensures Rank(Apply(s, DropGuard(sid)), t, x) <= Rank(s, t, x)
  {
    var s' := Apply(s, DropGuard(sid));
    assert Placed(s, sid);
    SweepsSame(s, s', t, x);
    if x != sid {
      UntouchedKeepsRank(s, s', t, x);
    }
  }

  /** `stop_all` takes everything out; registry steps and new calls touch no session. */
  lemma WideStepKeepsRank(s: State, a: Action, t: Turn, x: Sid)
    requires Inv(s) && Enabled(s, a) && (a.StopAll? || a.Registry? || a.Begin?)
    ensures Rank(Apply(s, a), t, x) <= Rank(s, t, x)
  {
    assert Placed(s, s.nextId);
    SweepsSame(s, Apply(s, a), t, x);
  }

  lemma RegisterKeepsRank(s: State, sid: Sid, t: Turn, x: Sid)
    requires Inv(s) && Enabled(s, RegisterExec(sid)) && x != sid
    ensures Rank(Apply(s, RegisterExec(sid)), t, x) <= Rank(s, t, x)
  {
    SweepsSame(s, Apply(s, RegisterExec(sid)), t, x);
    UntouchedKeepsRank(s, Apply(s, RegisterExec(sid)), t, x);
  }

  lemma RunStopTaskKeepsRank(s: State, sid: Sid, t: Turn, x: Sid)
    requires Inv(s) && Enabled(s, RunStopTask(sid))
    ensures Rank(Apply(s, RunStopTask(sid)), t, x) <= Rank(s, t, x)
  {
    SweepsSame(s, Apply(s, RunStopTask(sid)), t, x);
    if x != sid {
      UntouchedKeepsRank(s, Apply(s, RunStopTask(sid)), t, x);
    }
  }

  lemma NewSweepKeepsRank(s: State, a: Action, t: Turn, x: Sid)
    requires Enabled(s, a) && (a.Cancel? || a.Cleanup?)
    ensures Rank(Apply(s, a), t, x) <= Rank(s, t, x)
  {
    UntouchedKeepsRank(s, Apply(s, a), t, x);
  }

  /** A snapshot misses no session in the table: its guard is still registered. */
  lemma InSnapshot(s: State, t: Turn, sid: Sid)
    requires Inv(s) && sid in s.sessions && sid in s.commands && s.commands[sid].turn == Some(t)
    ensures t in s.turns && sid in ExecSessionsOf(s.turns[t].registry)
  {
    assert Placed(s, sid) && Guarded(s, sid) && Listed(s, sid);
    var g := GuardOf(s, sid).value;
    assert s.turns[t].registry.entries[g.id] == Reg.Exec(sid);
  }

  lemma SnapshotKeepsRank(s: State, k: nat, t: Turn, x: Sid)
    requires Inv(s) && Enabled(s, Snapshot(k)) && OfTurn(s, t, x)
    ensures Rank(Apply(s, Snapshot(k)), t, x) <= Rank(s, t, x)
  {
    var s' := Apply(s, Snapshot(k));
    assert forall j :: WillAsk(s, j, t, x) ==> WillAsk(s', j, t, x);
    if s.sweeps[k].turn == t && x in s.sessions {
      InSnapshot(s, t, x);
      assert WillAsk(s', k, t, x);
    } else {
      assert s.sweeps[k].turn != t ==> forall j :: WillSnapshot(s, j, t) ==> WillSnapshot(s', j, t);
    }
  }

  lemma RunCancellerKeepsRank(s: State, k: nat, sid: Sid, spawned: bool, t: Turn, x: Sid)
    requires Enabled(s, RunCanceller(k, sid, spawned)) && (x == sid ==> spawned)
    ensures Rank(Apply(s, RunCanceller(k, sid, spawned)), t, x) <= Rank(s, t, x)
  {
    var s' := Apply(s, RunCanceller(k, sid, spawned));
    if x != sid {
      UntouchedKeepsRank(s, s', t, x);
    }
  }

  lemma EndSweepKeepsRank(s: State, k: nat, t: Turn, x: Sid)
    requires Enabled(s, EndSweep(k))
    ensures Rank(Apply(s, EndSweep(k)), t, x) <= Rank(s, t, x)
  {
    UntouchedKeepsRank(s, Apply(s, EndSweep(k)), t, x);
  }

  /** Once a turn is cancelled, no step but the three events takes a session of it back from its release. */
  lemma StepKeepsRank(s: State, a: Action, t: Turn, x: Sid)
    requires Inv(s) && Enabled(s, a) && OfTurn(s, t, x) && Cancelled(s, t)
    requires !Hits(s, a, x) && a != RegisterExec(x)
    ensures Rank(Apply(s, a), t, x) <= Rank(s, t, x)
  {
    hide Rank, Inv;
    match a
    case Begin(_) => WideStepKeepsRank(s, a, t, x);
    case RegisterExec(sid) => RegisterKeepsRank(s, sid, t, x);
    case Spawn(sid, ok) => SpawnKeepsRank(s, sid, ok, t, x);
    case Insert(sid) => InsertKeepsRank(s, sid, t, x);
    case FirstPoll(sid, late) => FirstPollKeepsRank(s, sid, late, t, x);
    case SeeToken(sid) => GotoKeepsRank(s, sid, Stopping, t, x);
    case TimerFires(sid) => GotoKeepsRank(s, sid, Polling, t, x);
    case StopRemove(sid) => StopRemoveKeepsRank(s, sid, t, x);
    case Poll(sid, exited) => PollKeepsRank(s, sid, exited, t, x);
    case PollAgain(sid, exited) => PollTableKeepsRank(s, sid, exited, t, x);
    case DropCommand(sid) => DropCommandKeepsRank(s, sid, t, x);
    case StopAll => WideStepKeepsRank(s, a, t, x);
    case RunStopTask(sid) => RunStopTaskKeepsRank(s, sid, t, x);
    case TerminateDone(sid) => TerminateDoneKeepsRank(s, sid, t, x);
    case DropGuard(sid) => DropGuardKeepsRank(s, sid, t, x);
    case Registry(_, _) => WideStepKeepsRank(s, a, t, x);
    case Cancel(_, _) => NewSweepKeepsRank(s, a, t, x);
    case Cleanup(_, _) => NewSweepKeepsRank(s, a, t, x);
    case Snapshot(k) => SnapshotKeepsRank(s, k, t, x);
    case RunCanceller(k, sid, spawned) => RunCancellerKeepsRank(s, k, sid, spawned, t, x);
    case EndSweep(k) => EndSweepKeepsRank(s, k, t, x);
  }

  // ------------------------------------------------ cancellation leaves nothing behind

  /**
    A session of a cancelled turn in the table that nothing is bound to take out: no call that chose
    to stop, no stop task, no sweep. (Its call may be parked with its timer and its token both ready.)
   */
  ghost predicate Exposed(s: State, t: Turn, sid: Sid) {
    OfTurn(s, t, sid) && Cancelled(s, t) && Rank(s, t, sid) == STRANDED
  }

  /** Setting the token comes with a sweep that is going to ask for every session of the turn. */
  lemma CancelExposesNothing(s: State, t: Turn, k: nat, x: Sid)
    requires Enabled(s, Cancel(t, k))
    ensures !Exposed(Apply(s, Cancel(t, k)), t, x)
  {
    assert WillSnapshot(Apply(s, Cancel(t, k)), k, t);
  }

  lemma NewCallIsNotExposed(s: State, owner: Option<Turn>, t: Turn)
    requires Inv(s) && Enabled(s, Begin(owner))
    ensures !Exposed(Apply(s, Begin(owner)), t, s.nextId)
  {
    assert Placed(s, s.nextId);
  }

  lemma RegisteredIsNotExposed(s: State, x: Sid, t: Turn)
    requires Inv(s) && Enabled(s, RegisterExec(x))
    ensures !Exposed(Apply(s, RegisterExec(x)), t, x)
  {
    assert Placed(s, x);
  }

  /** Only the three events expose a session. */
  lemma StepExposes(s: State, a: Action, t: Turn, x: Sid)
    requires Inv(s) && Enabled(s, a) && Exposed(Apply(s, a), t, x) && !Hits(s, a, x)
    ensures Exposed(s, t, x)
  {
    hide Inv, Enabled, Apply, Rank;
    StepKeepsTokens(s, a);
    StepKeepsTurns(s, a);
    if a.Cancel? && a.turn == t {
      CancelExposesNothing(s, t, a.sweep, x);
    } else if x !in s.commands {
      NewCallIsNotExposed(s, a.owner, t);
    } else if a == RegisterExec(x) {
      RegisteredIsNotExposed(s, x, t);
    } else {
      StepKeepsRank(s, a, t, x);
      RankIsAtMostStranded(s, t, x);
    }
  }

  lemma RankIsAtMostStranded(s: State, t: Turn, x: Sid)
    ensures Rank(s, t, x) <= STRANDED
    ensures Rank(s, t, x) == STRANDED ==> x in s.sessions
  {
  }

  // ------------------------------------------------------- what ends an exposure

  /** The steps that help an exposed session, whatever the state. */
  predicate Rescues(a: Action, t: Turn, sid: Sid) {
    || ((a.Cancel? || a.Cleanup?) && a.turn == t)
    || (a.RunCanceller? && a.sid == sid && a.spawned)
    || a.StopAll?
    || a == PollAgain(sid, true) || a == Poll(sid, true)
    || a == SeeToken(sid)
  }

  /** In the table of an exposed session's command: past the insert, and not about to stop. */
  predicate InLimbo(s: State, sid: Sid) {
    sid in s.sessions && (At(s, sid, Parked) || At(s, sid, Polling) || At(s, sid, Done)) && sid !in s.stopTasks
  }

  ghost predicate NoSweepFor(s: State, t: Turn, sid: Sid) {
    forall k :: !WillAsk(s, k, t, sid) && !WillSnapshot(s, k, t)
  }

  lemma ExposedMeans(s: State, t: Turn, x: Sid)
    requires Inv(s)
    ensures Exposed(s, t, x) <==> OfTurn(s, t, x) && Cancelled(s, t) && InLimbo(s, x) && NoSweepFor(s, t, x)
  {
    assert Placed(s, x);
  }

  lemma MoveKeepsLimbo(s: State, s': State, sid: Sid, t: Turn, x: Sid)
    requires MovesOnly(s, s', sid) && InLimbo(s, x) && NoSweepFor(s, t, x)
    requires x == sid ==> InLimbo(s', x)
    ensures InLimbo(s', x) && NoSweepFor(s', t, x)
  {
    assert x != sid ==> Untouched(s, s', x);
    SweepsSame(s, s', t, x);
  }

  lemma BeginKeepsLimbo(s: State, a: Action, t: Turn, x: Sid)
    requires Inv(s) && Enabled(s, a) && (a.Begin? || a.RegisterExec?) && InLimbo(s, x) && NoSweepFor(s, t, x)
    ensures InLimbo(Apply(s, a), x) && NoSweepFor(Apply(s, a), t, x)
  {
    assert Placed(s, s.nextId);
    SweepsSame(s, Apply(s, a), t, x);
  }

  lemma SpawnKeepsLimbo(s: State, sid: Sid, ok: bool, t: Turn, x: Sid)
    requires Enabled(s, Spawn(sid, ok)) && InLimbo(s, x) && NoSweepFor(s, t, x)
    ensures InLimbo(Apply(s, Spawn(sid, ok)), x) && NoSweepFor(Apply(s, Spawn(sid, ok)), t, x)
  {
    MoveKeepsLimbo(s, Apply(s, Spawn(sid, ok)), sid, t, x);
  }

  lemma InsertKeepsLimbo(s: State, sid: Sid, t: Turn, x: Sid)
    requires Enabled(s, Insert(sid)) && InLimbo(s, x) && NoSweepFor(s, t, x)
    ensures InLimbo(Apply(s, Insert(sid)), x) && NoSweepFor(Apply(s, Insert(sid)), t, x)
  {
    MoveKeepsLimbo(s, Apply(s, Insert(sid)), sid, t, x);
  }

  lemma SelectStepKeepsLimbo(s: State, a: Action, t: Turn, x: Sid)
    requires Enabled(s, a) && SelectStep(a) && InLimbo(s, x) && NoSweepFor(s, t, x) && a != SeeToken(x)
    ensures InLimbo(Apply(s, a), x) && NoSweepFor(Apply(s, a), t, x)
  {
    MoveKeepsLimbo(s, Apply(s, a), a.sid, t, x);
  }

  lemma StopRemoveKeepsLimbo(s: State, sid: Sid, t: Turn, x: Sid)
    requires Enabled(s, StopRemove(sid)) && InLimbo(s, x) && NoSweepFor(s, t, x)
    ensures InLimbo(Apply(s, StopRemove(sid)), x) && NoSweepFor(Apply(s, StopRemove(sid)), t, x)
  {
    MoveKeepsLimbo(s, Apply(s, StopRemove(sid)), sid, t, x);
  }

  lemma PollKeepsLimbo(s: State, sid: Sid, exited: bool, t: Turn, x: Sid)
    requires Enabled(s, Poll(sid, exited)) && InLimbo(s, x) && NoSweepFor(s, t, x) && (sid == x ==> !exited)
    ensures InLimbo(Apply(s, Poll(sid, exited)), x) && NoSweepFor(Apply(s, Poll(sid, exited)), t, x)
  {
    MoveKeepsLimbo(s, Apply(s, Poll(sid, exited)), sid, t, x);
  }

  lemma DropCommandKeepsLimbo(s: State, sid: Sid, t: Turn, x: Sid)
    requires Enabled(s, DropCommand(sid)) && InLimbo(s, x) && NoSweepFor(s, t, x)
    ensures InLimbo(Apply(s, DropCommand(sid)), x) && NoSweepFor(Apply(s, DropCommand(sid)), t, x)
  {
    MoveKeepsLimbo(s, Apply(s, DropCommand(sid)), sid, t, x);
  }

  lemma OutsideStepKeepsLimbo(s: State, a: Action, t: Turn, x: Sid)
    requires Inv(s) && Enabled(s, a) && OutsideStep(a) && InLimbo(s, x) && NoSweepFor(s, t, x)
    requires !a.StopAll? && a != PollAgain(x, true)
    ensures InLimbo(Apply(s, a), x) && NoSweepFor(Apply(s, a), t, x)
  {
    assert Placed(s, x);
    SweepsSame(s, Apply(s, a), t, x);
  }

  lemma SweepStepKeepsLimbo(s: State, a: Action, t: Turn, x: Sid)
    requires Enabled(s, a) && SweepStep(a) && InLimbo(s, x) && NoSweepFor(s, t, x) && !Rescues(a, t, x)
    ensures InLimbo(Apply(s, a), x) && NoSweepFor(Apply(s, a), t, x)
  {
    var s' := Apply(s, a);
    forall k ensures !WillAsk(s', k, t, x) && !WillSnapshot(s', k, t) {
      assert !WillAsk(s, k, t, x) && !WillSnapshot(s, k, t);
    }
  }

  lemma RescueHelps(s: State, a: Action, t: Turn, x: Sid)
    requires Inv(s) && Enabled(s, a) && InLimbo(s, x) && Rescues(a, t, x)
    ensures !(InLimbo(Apply(s, a), x) && NoSweepFor(Apply(s, a), t, x))
  {
    assert Placed(s, x);
    if a.Cancel? || a.Cleanup? {
      assert WillSnapshot(Apply(s, a), a.sweep, t);
    }
  }

  /** Exposure ends at exactly these steps. */
  lemma ExposureEndsIff(s: State, a: Action, t: Turn, x: Sid)
    requires Inv(s) && Enabled(s, a) && Exposed(s, t, x)
    ensures !Exposed(Apply(s, a), t, x) <==> Rescues(a, t, x)
  {
    hide Inv, Enabled, Apply, Exposed, InLimbo, NoSweepFor;
    StepKeepsInv(s, a);
    StepKeepsTokens(s, a);
    StepKeepsTurns(s, a);
    ExposedMeans(s, t, x);
    ExposedMeans(Apply(s, a), t, x);
    if Rescues(a, t, x) {
      RescueHelps(s, a, t, x);
    } else if a.Begin? || a.RegisterExec? {
      BeginKeepsLimbo(s, a, t, x);
    } else if a.Spawn? {
      SpawnKeepsLimbo(s, a.sid, a.ok, t, x);
    } else if a.Insert? {
      InsertKeepsLimbo(s, a.sid, t, x);
    } else if SelectStep(a) {
      SelectStepKeepsLimbo(s, a, t, x);
    } else if a.StopRemove? {
      StopRemoveKeepsLimbo(s, a.sid, t, x);
    } else if a.Poll? {
      PollKeepsLimbo(s, a.sid, a.exited, t, x);
    } else if a.DropCommand? {
      DropCommandKeepsLimbo(s, a.sid, t, x);
    } else if SweepStep(a) {
      SweepStepKeepsLimbo(s, a, t, x);
    } else {
      OutsideStepKeepsLimbo(s, a, t, x);
    }
  }

  /** One of the three events took away the last thing bound to stop the session, and no step rescued it since. */
  ghost predicate ExposedSince(s: State, actions: seq<Action>, t: Turn, sid: Sid)
    requires ValidRun(s, actions)
  {
    actions != [] &&
    (var front, last := actions[..|actions| - 1], actions[|actions| - 1];
     || (Hits(Run(s, front), last, sid) && Exposed(Run(s, actions), t, sid))
     || (ExposedSince(s, front, t, sid) && !Rescues(last, t, sid)))
  }

  /** A session is exposed at the end of a run exactly when one of the events exposed it and nothing rescued it since. */
  lemma {:induction false} ExposedIff(turns: set<Turn>, actions: seq<Action>, t: Turn, sid: Sid)
    requires ValidRun(Init(turns), actions)
    ensures Exposed(Run(Init(turns), actions), t, sid) <==> ExposedSince(Init(turns), actions, t, sid)
  {
    hide Inv, Enabled, Apply, Exposed, Hits, Rescues, Init;
    var s := Init(turns);
    if actions == [] {
      NothingExposedAtFirst(turns, t, sid);
    } else {
      var front, last := actions[..|actions| - 1], actions[|actions| - 1];
      InitInv(turns);
      RunKeepsInv(s, front);
      ExposedIff(turns, front, t, sid);
      if Exposed(Run(s, front), t, sid) {
        ExposureEndsIff(Run(s, front), last, t, sid);
      }
      if Exposed(Run(s, actions), t, sid) && !Hits(Run(s, front), last, sid) {
        StepExposes(Run(s, front), last, t, sid);
      }
    }
  }

  lemma NothingExposedAtFirst(turns: set<Turn>, t: Turn, sid: Sid)
    ensures !Exposed(Init(turns), t, sid)
  {
  }

  /** Nothing of the turn is in flight: no call before its return, no sweep, no stop task. */
  ghost predicate Quiet(s: State, t: Turn) {
    && (forall sid :: sid in s.commands && s.commands[sid].turn == Some(t) ==> s.commands[sid].pc == Done)
    && (forall k :: k in s.sweeps ==> s.sweeps[k].turn != t)
    && (forall sid :: sid in s.stopTasks ==> sid in s.commands && s.commands[sid].turn != Some(t))
  }

  lemma QuietTableIsExposed(s: State, t: Turn, sid: Sid)
    requires Inv(s) && Cancelled(s, t) && Quiet(s, t)
    ensures Exposed(s, t, sid) <==> sid in s.sessions && s.sessions[sid].owner == Some(t)
  {
    assert Placed(s, sid);
    RankIsAtMostStranded(s, t, sid);
  }

  /**
    What cancellation leaves behind. After any interleaving, once a turn is cancelled and nothing of
    it is in flight, a session of it is in the table exactly when one of the three events exposed it
    and nothing rescued it since.
   */
  lemma LeftoversAreExposed(turns: set<Turn>, actions: seq<Action>, t: Turn, sid: Sid)
    requires ValidRun(Init(turns), actions)
    requires Cancelled(Run(Init(turns), actions), t) && Quiet(Run(Init(turns), actions), t)
    ensures var s := Run(Init(turns), actions);
            sid in s.sessions && s.sessions[sid].owner == Some(t) <==> ExposedSince(Init(turns), actions, t, sid)
  {
    InitInv(turns);
    RunKeepsInv(Init(turns), actions);
    QuietTableIsExposed(Run(Init(turns), actions), t, sid);
    ExposedIff(turns, actions, t, sid);
  }

  ghost predicate NoSessionOf(s: State, t: Turn) {
    forall sid :: sid in s.sessions ==> s.sessions[sid].owner != Some(t)
  }

  /** So exactly the runs at whose end no session is still exposed leave nothing of the turn behind. */
  lemma {:induction false} CancellationLeavesNothingBehind(turns: set<Turn>, actions: seq<Action>, t: Turn)
    requires ValidRun(Init(turns), actions)
    requires Cancelled(Run(Init(turns), actions), t) && Quiet(Run(Init(turns), actions), t)
    ensures NoSessionOf(Run(Init(turns), actions), t) <==> forall sid :: !ExposedSince(Init(turns), actions, t, sid)
  {
    hide Run, ValidRun, Init, Quiet, ExposedSince;
    var s := Run(Init(turns), actions);
    if NoSessionOf(s, t) {
      forall sid ensures !ExposedSince(Init(turns), actions, t, sid) {
        LeftoversAreExposed(turns, actions, t, sid);
      }
    } else {
      var sid :| sid in s.sessions && s.sessions[sid].owner == Some(t);
      LeftoversAreExposed(turns, actions, t, sid);
    }
  }

  /** In particular the runs without any such event. */
  ghost predicate NoHits(s: State, actions: seq<Action>)
    requires ValidRun(s, actions)
  {
    actions == [] ||
    (var front := actions[..|actions| - 1];
     var last := actions[|actions| - 1];
     NoHits(s, front) && forall sid :: !Hits(Run(s, front), last, sid))
  }

  lemma {:induction false} NoHitsNoExposure(s: State, actions: seq<Action>, t: Turn, sid: Sid)
    requires ValidRun(s, actions) && NoHits(s, actions)
    ensures !ExposedSince(s, actions, t, sid)
  {
    if actions != [] {
      NoHitsNoExposure(s, actions[..|actions| - 1], t, sid);
    }
  }
}
