/**
  Turn-scoped exec sessions (unified_exec.rs with turn.rs): every interleaving of
  `exec_command` calls, polls, stop tasks, `cancel` sweeps, guard releases and waiters, one
  step for each lock region or atomic operation. Processes, timers and the scheduler are
  nondeterministic steps. A session is named by the id its command drew.
 */
module ExecSessions {
  import opened Basics
  import Reg = TurnRegistry

  type Sid = nat
  type Turn = nat

  /** Where one `exec_command` call is. */
  datatype Pc =
    | Starting     // has drawn its session id
    | Registered   // its resource is in the turn's registry
    | Spawned      // its process runs, the session is not in the table yet
    | Inserted     // in the table; the select has not been polled
    | Parked       // the select was polled and is suspended
    | Stopping     // the cancellation arm won
    | Polling      // the yield arm won
    | Done         // returned, failed or dropped

  datatype Guard = Guard(turn: Turn, id: nat)

  datatype Command = Command(turn: Option<Turn>, pc: Pc, guard: Option<Guard>)

  datatype Session = Session(owner: Option<Turn>, guard: Option<Guard>)

  datatype Phase = Snapshotting | Cancelling(rest: set<Sid>)

  /** One call of `cancel_all` under way. */
  datatype Sweep = Sweep(turn: Turn, phase: Phase)

  datatype TurnState = TurnState(cancelled: bool, registry: Reg.Registry)

  datatype State = State(
    nextId: nat,
    commands: map<Sid, Command>,
    sessions: map<Sid, Session>,      // the shared table
    terminating: map<Sid, Session>,   // taken out of the table, being killed and reaped
    dropping: map<Sid, Guard>,        // owner gone, its guard about to release its entry
    alive: set<Sid>,                  // processes spawned, not yet terminated or dropped
    stopTasks: multiset<Sid>,         // spawned tasks that have not reached the table
    sweeps: map<nat, Sweep>,
    turns: map<Turn, TurnState>
  )

  function Init(turns: set<Turn>): State {
    State(1, map[], map[], map[], map[], {}, multiset{}, map[],
          map t | t in turns :: TurnState(false, Reg.FRESH))
  }

  datatype Action =
    | Begin(owner: Option<Turn>)
    | RegisterExec(sid: Sid)
    | Spawn(sid: Sid, ok: bool)
    | Insert(sid: Sid)
    | FirstPoll(sid: Sid, late: bool)    // late: the yield timer is already due and is chosen
    | SeeToken(sid: Sid)
    | TimerFires(sid: Sid)
    | StopRemove(sid: Sid)
    | Poll(sid: Sid, exited: bool)       // the command's own poll
    | PollAgain(sid: Sid, exited: bool)  // the poll at the end of a `write_stdin`
    | DropCommand(sid: Sid)              // the caller drops the call's future at an await
    | StopAll
    | RunStopTask(sid: Sid)
    | TerminateDone(sid: Sid)
    | DropGuard(sid: Sid)
    | Registry(turn: Turn, step: Reg.Action)
    | Cancel(turn: Turn, sweep: nat)     // set the token; the sweep follows
    | Cleanup(turn: Turn, sweep: nat)    // `cleanup_and_wait`: a sweep without the token
    | Snapshot(sweep: nat)
    | RunCanceller(sweep: nat, sid: Sid, spawned: bool)
    | EndSweep(sweep: nat)

  predicate At(s: State, sid: Sid, pc: Pc) {
    sid in s.commands && s.commands[sid].pc == pc
  }

  predicate TokenSet(s: State, sid: Sid) {
    sid in s.commands && s.commands[sid].turn.Some?
    && s.commands[sid].turn.value in s.turns && s.turns[s.commands[sid].turn.value].cancelled
  }

  /** Registry steps of other users of the turn: passive resources, notifications, waiters. */
  predicate OthersStep(r: Reg.Registry, a: Reg.Action) {
    Reg.Enabled(r, a) && (a.Register? ==> a.resource.Passive?) && (a.Remove? ==> r.entries[a.id].Passive?)
  }

  predicate Enabled(s: State, a: Action) {
    match a
    case Begin(turn) => turn.Some? ==> turn.value in s.turns
    case RegisterExec(sid) => At(s, sid, Starting) && (s.commands[sid].turn.Some? ==> s.commands[sid].turn.value in s.turns)
    case Spawn(sid, _) => At(s, sid, Registered)
    case Insert(sid) => At(s, sid, Spawned)
    case FirstPoll(sid, _) => At(s, sid, Inserted)
    case SeeToken(sid) => At(s, sid, Parked) && TokenSet(s, sid)
    case TimerFires(sid) => At(s, sid, Parked)
    case StopRemove(sid) => At(s, sid, Stopping)
    case Poll(sid, _) => At(s, sid, Polling)
    case PollAgain(sid, _) => sid in s.sessions
    case DropCommand(sid) => At(s, sid, Spawned) || At(s, sid, Parked) || At(s, sid, Stopping) || At(s, sid, Polling)
    case StopAll => true
    case RunStopTask(sid) => sid in s.stopTasks
    case TerminateDone(sid) => sid in s.terminating
    case DropGuard(sid) => sid in s.dropping && s.dropping[sid].turn in s.turns
                           && Reg.Enabled(s.turns[s.dropping[sid].turn].registry, Reg.Remove(s.dropping[sid].id))
    case Registry(t, step) => t in s.turns && OthersStep(s.turns[t].registry, step)
    case Cancel(t, k) => t in s.turns && k !in s.sweeps
    case Cleanup(t, k) => t in s.turns && k !in s.sweeps
    case Snapshot(k) => k in s.sweeps && s.sweeps[k].phase.Snapshotting? && s.sweeps[k].turn in s.turns
    case RunCanceller(k, sid, _) => k in s.sweeps && s.sweeps[k].phase.Cancelling? && sid in s.sweeps[k].phase.rest
    case EndSweep(k) => k in s.sweeps && s.sweeps[k].phase == Cancelling({})
  }

  // -------------------------------------------------------------------- steps

  function Goto(s: State, sid: Sid, pc: Pc): State
    requires sid in s.commands
  {
    s.(commands := s.commands[sid := s.commands[sid].(pc := pc)])
  }

  function WithRegistry(s: State, t: Turn, r: Reg.Registry): State
    requires t in s.turns
  {
    s.(turns := s.turns[t := s.turns[t].(registry := r)])
  }

  /** The owner of a guard is gone: its process was terminated or dropped, its guard drops next. */
  function LetGo(s: State, sid: Sid, guard: Option<Guard>): State {
    s.(alive := s.alive - {sid},
       dropping := if guard.Some? then s.dropping[sid := guard.value] else s.dropping)
  }

  /** `stop_session_and_wait` up to the await: take the session out of the table, if it is there. */
  function Take(s: State, sid: Sid): State {
    if sid !in s.sessions then s
    else s.(sessions := s.sessions - {sid}, terminating := s.terminating[sid := s.sessions[sid]])
  }

  /** `poll_session`: an exited session leaves the table and is dropped there. */
  function PollTable(s: State, sid: Sid, exited: bool): State {
    if sid !in s.sessions || !exited then s
    else LetGo(s.(sessions := s.sessions - {sid}), sid, s.sessions[sid].guard)
  }

  function ExecSessionsOf(r: Reg.Registry): set<Sid> {
    set id | id in r.entries && r.entries[id].Exec? :: r.entries[id].session
  }

  function DoRegister(s: State, sid: Sid): State
    requires Enabled(s, RegisterExec(sid))
  {
    var turn := s.commands[sid].turn;
    if turn.None? then Goto(s, sid, Registered) else
      var r := s.turns[turn.value].registry;
      var s' := WithRegistry(s, turn.value, Reg.Apply(r, Reg.Register(Reg.Exec(sid))));
      s'.(commands := s.commands[sid := Command(turn, Registered, Some(Guard(turn.value, r.nextId)))])
  }

  function DoInsert(s: State, sid: Sid): State
    requires Enabled(s, Insert(sid))
  {
    var c := s.commands[sid];
    s.(commands := s.commands[sid := Command(c.turn, if c.turn.Some? then Inserted else Parked, None)],
       sessions := s.sessions[sid := Session(c.turn, c.guard)])
  }

  /** Fail or be dropped before the insert: handle first, then the guard. */
  function Abandon(s: State, sid: Sid): State
    requires sid in s.commands
  {
    var c := s.commands[sid];
    LetGo(s.(commands := s.commands[sid := Command(c.turn, Done, None)]), sid, c.guard)
  }

  function DoFirstPoll(s: State, sid: Sid, late: bool): State
    requires Enabled(s, FirstPoll(sid, late))
  {
    Goto(s, sid, if late then Polling else if TokenSet(s, sid) then Stopping else Parked)
  }

  function DoDropCommand(s: State, sid: Sid): State
    requires Enabled(s, DropCommand(sid))
  {
    if s.commands[sid].pc.Spawned? then Abandon(s, sid) else Goto(s, sid, Done)
  }

  function DoDropGuard(s: State, sid: Sid): State
    requires Enabled(s, DropGuard(sid))
  {
    var g := s.dropping[sid];
    WithRegistry(s.(dropping := s.dropping - {sid}), g.turn, Reg.Apply(s.turns[g.turn].registry, Reg.Remove(g.id)))
  }

  function DoRunCanceller(s: State, k: nat, sid: Sid, spawned: bool): State
    requires Enabled(s, RunCanceller(k, sid, spawned))
  {
    var sweep := s.sweeps[k];
    s.(sweeps := s.sweeps[k := sweep.(phase := Cancelling(sweep.phase.rest - {sid}))],
       stopTasks := if spawned then s.stopTasks + multiset{sid} else s.stopTasks)
  }

  function Apply(s: State, a: Action): State
    requires Enabled(s, a)
  {
    match a
    case Begin(turn) => s.(nextId := s.nextId + 1, commands := s.commands[s.nextId := Command(turn, Starting, None)])
    case RegisterExec(sid) => DoRegister(s, sid)
    case Spawn(sid, ok) => if ok then Goto(s, sid, Spawned).(alive := s.alive + {sid}) else Abandon(s, sid)
    case Insert(sid) => DoInsert(s, sid)
    case FirstPoll(sid, late) => DoFirstPoll(s, sid, late)
    case SeeToken(sid) => Goto(s, sid, Stopping)
    case TimerFires(sid) => Goto(s, sid, Polling)
    case StopRemove(sid) => Take(Goto(s, sid, Done), sid)
    case Poll(sid, exited) => PollTable(Goto(s, sid, Done), sid, exited)
    case PollAgain(sid, exited) => PollTable(s, sid, exited)
    case DropCommand(sid) => DoDropCommand(s, sid)
    case StopAll => s.(sessions := map[], terminating := s.terminating + s.sessions)
    case RunStopTask(sid) => Take(s.(stopTasks := s.stopTasks - multiset{sid}), sid)
    case TerminateDone(sid) => LetGo(s.(terminating := s.terminating - {sid}), sid, s.terminating[sid].guard)
    case DropGuard(sid) => DoDropGuard(s, sid)
    case Registry(t, step) => WithRegistry(s, t, Reg.Apply(s.turns[t].registry, step))
    case Cancel(t, k) => s.(turns := s.turns[t := s.turns[t].(cancelled := true)], sweeps := s.sweeps[k := Sweep(t, Snapshotting)])
    case Cleanup(t, k) => s.(sweeps := s.sweeps[k := Sweep(t, Snapshotting)])
    case Snapshot(k) =>
      s.(sweeps := s.sweeps[k := s.sweeps[k].(phase := Cancelling(ExecSessionsOf(s.turns[s.sweeps[k].turn].registry)))])
    case RunCanceller(k, sid, spawned) => DoRunCanceller(s, k, sid, spawned)
    case EndSweep(k) => s.(sweeps := s.sweeps - {k})
  }

  predicate ValidRun(s: State, actions: seq<Action>)
    decreases |actions|, 0
  {
    actions == [] ||
    (var front := actions[..|actions| - 1];
     ValidRun(s, front) && Enabled(Run(s, front), actions[|actions| - 1]))
  }

  function Run(s: State, actions: seq<Action>): State
    requires ValidRun(s, actions)
    decreases |actions|, 1
  {
    if actions == [] then s else Apply(Run(s, actions[..|actions| - 1]), actions[|actions| - 1])
  }

  // ----------------------------------------------------------- kinds of steps

  /** Up to the insert. */
  predicate EarlyStep(a: Action) {
    a.Begin? || a.RegisterExec? || a.Spawn? || a.Insert?
  }

  predicate SelectStep(a: Action) {
    a.FirstPoll? || a.SeeToken? || a.TimerFires?
  }

  /** The last step of a call. */
  predicate LastStep(a: Action) {
    a.StopRemove? || a.Poll? || a.DropCommand?
  }

  predicate SweepStep(a: Action) {
    a.Cancel? || a.Cleanup? || a.Snapshot? || a.RunCanceller? || a.EndSweep?
  }

  /** Steps of no call: polls from outside, stop tasks, terminations, guards, other users of a registry. */
  predicate OutsideStep(a: Action) {
    a.PollAgain? || a.StopAll? || a.RunStopTask? || a.TerminateDone? || a.DropGuard? || a.Registry?
  }

  // ---------------------------------------------------------------- invariant

  /** The guard a session's owner holds, wherever the session is. */
  function GuardOf(s: State, sid: Sid): Option<Guard> {
    if sid in s.sessions then s.sessions[sid].guard
    else if sid in s.terminating then s.terminating[sid].guard
    else if sid in s.dropping then Some(s.dropping[sid])
    else if sid in s.commands then s.commands[sid].guard
    else None
  }

  predicate BeforeInsert(pc: Pc) {
    pc == Starting || pc == Registered || pc == Spawned
  }

  /** Between registration and insert the command itself holds the guard. */
  predicate HoldsGuard(s: State, sid: Sid) {
    At(s, sid, Registered) || At(s, sid, Spawned)
  }

  /** A session is in one place at a time, owned by the turn of its command. */
  ghost predicate Placed(s: State, sid: Sid) {
    && (sid in s.commands ==> sid < s.nextId)
    && (sid in s.sessions ==> sid !in s.terminating && sid !in s.dropping)
    && (sid in s.terminating ==> sid !in s.dropping)
    && (sid in s.sessions ==> sid in s.commands && !BeforeInsert(s.commands[sid].pc)
                              && s.sessions[sid].owner == s.commands[sid].turn)
    && (sid in s.terminating ==> sid in s.commands && !BeforeInsert(s.commands[sid].pc)
                                 && s.terminating[sid].owner == s.commands[sid].turn)
    && (sid in s.dropping ==> sid in s.commands && !BeforeInsert(s.commands[sid].pc))
    && (sid in s.commands && s.commands[sid].guard.Some? ==> HoldsGuard(s, sid))
    && (sid in s.commands && s.commands[sid].turn.Some? ==> s.commands[sid].turn.value in s.turns)
    && (sid in s.alive ==> sid in s.sessions || sid in s.terminating || At(s, sid, Spawned))
  }

  /** The owner of a session of some turn has a guard for it. */
  ghost predicate Guarded(s: State, sid: Sid) {
    && (sid in s.sessions && s.sessions[sid].owner.Some? ==> s.sessions[sid].guard.Some?)
    && (sid in s.terminating && s.terminating[sid].owner.Some? ==> s.terminating[sid].guard.Some?)
    && (HoldsGuard(s, sid) && s.commands[sid].turn.Some? ==> s.commands[sid].guard.Some?)
  }

  /** While a guard is held, the registry of the command's turn has its entry. */
  ghost predicate Listed(s: State, sid: Sid) {
    GuardOf(s, sid).Some? ==>
      var g := GuardOf(s, sid).value;
      && sid in s.commands && s.commands[sid].turn == Some(g.turn)
      && g.turn in s.turns && g.id in s.turns[g.turn].registry.entries
      && s.turns[g.turn].registry.entries[g.id] == Reg.Exec(sid)
  }

  /** Every exec entry of a registry belongs to the one owner of its session. */
  ghost predicate EntryOwned(s: State, t: Turn, id: nat) {
    t in s.turns && id in s.turns[t].registry.entries && s.turns[t].registry.entries[id].Exec? ==>
      GuardOf(s, s.turns[t].registry.entries[id].session) == Some(Guard(t, id))
  }

  ghost predicate SweepOk(s: State, k: nat) {
    k in s.sweeps ==> s.sweeps[k].turn in s.turns
  }

  ghost predicate Inv(s: State) {
    && (forall sid :: Placed(s, sid))
    && (forall sid :: Guarded(s, sid))
    && (forall sid :: Listed(s, sid))
    && (forall t, id :: EntryOwned(s, t, id))
    && (forall t :: t in s.turns ==> Reg.Inv(s.turns[t].registry))
    && (forall k :: SweepOk(s, k))
  }

  /** Where a session is, and its command, as before. */
  ghost predicate Untouched(s: State, s': State, sid: Sid) {
    && (sid in s'.commands <==> sid in s.commands) && (sid in s.commands ==> s'.commands[sid] == s.commands[sid])
    && (sid in s'.sessions <==> sid in s.sessions) && (sid in s.sessions ==> s'.sessions[sid] == s.sessions[sid])
    && (sid in s'.terminating <==> sid in s.terminating)
    && (sid in s.terminating ==> s'.terminating[sid] == s.terminating[sid])
    && (sid in s'.dropping <==> sid in s.dropping) && (sid in s.dropping ==> s'.dropping[sid] == s.dropping[sid])
    && (sid in s'.alive <==> sid in s.alive)
  }

  /** A step that moves one session and touches nothing else. */
  ghost predicate MovesOnly(s: State, s': State, sid: Sid) {
    && s'.nextId == s.nextId && s'.turns == s.turns && s'.sweeps == s.sweeps && s'.stopTasks == s.stopTasks
    && s'.commands.Keys == s.commands.Keys
    && (sid in s.commands ==> s'.commands[sid].turn == s.commands[sid].turn)
    && forall x :: x != sid ==> Untouched(s, s', x)
  }

  lemma InitInv(turns: set<Turn>)
    ensures Inv(Init(turns))
  {
  }
}
