/**
  The session manager of unified_exec.rs as the code keeps it: an id counter and a table, with
  one method for each region under the table lock. The step machine of `ExecSessions` takes
  these regions as atomic; here they are tied to its steps.
 */
module ExecManager {
  import opened Basics
  import opened ExecSessions
  import opened ExecFrames
  import opened ExecTheorems

  const MAX_STDIN_BYTES := 1024 * 1024

  /** `handle` as far as a caller can tell: a pseudo-terminal, or pipes with stdin open or not. */
  datatype Handle = Pty | Pipe(stdinOpen: bool)

  datatype Entry = Entry(session: Session, tty: bool, handle: Handle)

  /** What `try_wait` or `poll_exit_code` reports. */
  datatype ExitStatus = StillRunning | Exited(code: int) | WaitFailed

  datatype PollOutcome = UnknownSession | WaitError | Output(exitCode: Option<int>, sessionId: Option<Sid>)

  datatype Input = Interrupt | Text(length: nat)

  datatype WriteOutcome =
    | TooLarge | NoSession | OtherTurn | AlreadyExited | NeedsTty | StdinClosed | IoError | Killed | Written

  predicate Fits(input: Input) {
    input.Text? ==> input.length <= MAX_STDIN_BYTES
  }

  predicate MayTouch(entry: Entry, turn: Option<Turn>) {
    entry.session.owner.None? || turn == entry.session.owner
  }

  class UnifiedExecManager {
    var nextId: nat
    var sessions: map<Sid, Entry>

    ghost function Table(): map<Sid, Session>
      reads this
    {
      map sid | sid in sessions :: sessions[sid].session
    }

    constructor ()
      ensures nextId == 1 && sessions == map[]
    {
      nextId, sessions := 1, map[];
    }

    method DrawId() returns (id: Sid)
      modifies this
      ensures id == old(nextId) && nextId == id + 1 && sessions == old(sessions)
    {
      id := nextId;
      nextId := nextId + 1;
    }

    /** The insert of `exec_command`, as the step machine takes it. */
    method InsertSession(sid: Sid, entry: Entry, ghost s: State)
      requires Table() == s.sessions && Enabled(s, Insert(sid))
      requires entry.session == Session(s.commands[sid].turn, s.commands[sid].guard)
      modifies this
      ensures Table() == Apply(s, Insert(sid)).sessions && nextId == old(nextId)
    {
      sessions := sessions[sid := entry];
    }

    /** `stop_session_and_wait` up to the await: only the one who finds the session terminates it. */
    method TakeSession(sid: Sid, ghost s: State) returns (taken: Option<Entry>)
      requires Table() == s.sessions
      modifies this
      ensures Table() == Take(s, sid).sessions && nextId == old(nextId)
      ensures taken == if sid in old(sessions) then Some(old(sessions)[sid]) else None
    {
      if sid !in sessions {
        return None;
      }
      taken := Some(sessions[sid]);
      sessions := sessions - {sid};
    }

    /** `stop_all`: drain under the lock, terminate one by one afterwards. */
    method DrainAll(ghost s: State) returns (removed: map<Sid, Entry>, count: nat)
      requires Table() == s.sessions
      modifies this
      ensures Table() == Apply(s, StopAll).sessions == map[] && nextId == old(nextId)
      ensures removed == old(sessions) && count == |removed|
    {
      removed := sessions;
      count := |removed|;
      sessions := map[];
    }

    /** `poll_session`: a session seen to have exited leaves the table; a failed wait changes nothing. */
    method PollSession(sid: Sid, status: ExitStatus, ghost s: State) returns (outcome: PollOutcome)
      requires Table() == s.sessions
      modifies this
      ensures Table() == PollTable(s, sid, status.Exited?).sessions && nextId == old(nextId)
      ensures outcome.UnknownSession? <==> sid !in old(sessions)
      ensures outcome.Output? <==> sid in old(sessions) && !status.WaitFailed?
      ensures outcome.Output? ==>
                (outcome.sessionId == Some(sid) <==> sid in sessions) &&
                (outcome.exitCode.Some? <==> outcome.sessionId.None?) &&
                (status.Exited? ==> outcome.exitCode == Some(status.code))
    {
      if sid !in sessions {
        return UnknownSession;
      }
      match status
      case WaitFailed => outcome := WaitError;
      case StillRunning => outcome := Output(None, Some(sid));
      case Exited(code) =>
        outcome := Output(Some(code), None);
        sessions := sessions - {sid};
    }

    /** The input is within its limit and finds a session that the turn may touch. */
    predicate Reaches(sid: Sid, turn: Option<Turn>, input: Input)
      reads this
    {
      Fits(input) && sid in sessions && MayTouch(sessions[sid], turn)
    }

    predicate Writable(sid: Sid, input: Input, exited: bool)
      reads this
      requires sid in sessions
    {
      input.Text? && !exited && sessions[sid].tty && (sessions[sid].handle.Pipe? ==> sessions[sid].handle.stdinOpen)
    }

    /**
      The first lock region of `write_stdin`. A turn's session is touched by that turn alone, an
      exited one only by an interrupt, and input is written only to a live terminal session.
     */
    method WriteRegion(sid: Sid, turn: Option<Turn>, input: Input, exited: bool, ioOk: bool)
      returns (outcome: WriteOutcome)
      ensures outcome.TooLarge? <==> !Fits(input)
      ensures outcome.NoSession? <==> Fits(input) && sid !in sessions
      ensures outcome.OtherTurn? <==> Fits(input) && sid in sessions && !MayTouch(sessions[sid], turn)
      ensures outcome.Killed? <==> Reaches(sid, turn, input) && input.Interrupt? && (sessions[sid].handle.Pipe? || ioOk)
      ensures outcome.AlreadyExited? <==> Reaches(sid, turn, input) && input.Text? && exited
      ensures outcome.NeedsTty? <==> Reaches(sid, turn, input) && input.Text? && !exited && !sessions[sid].tty
      ensures outcome.StdinClosed? <==>
                && Reaches(sid, turn, input) && input.Text? && !exited && sessions[sid].tty
                && sessions[sid].handle.Pipe? && !sessions[sid].handle.stdinOpen
      ensures outcome.Written? <==> Reaches(sid, turn, input) && Writable(sid, input, exited) && ioOk
      ensures outcome.IoError? <==>
                && Reaches(sid, turn, input) && !ioOk
                && (Writable(sid, input, exited) || (input.Interrupt? && sessions[sid].handle.Pty?))
    {
      if input.Text? && input.length > MAX_STDIN_BYTES {
        return TooLarge;
      }
      if sid !in sessions {
        return NoSession;
      }
      var entry := sessions[sid];
      if entry.session.owner.Some? && turn != entry.session.owner {
        return OtherTurn;
      }
      if input.Text? && exited {
        return AlreadyExited;
      }
      if input.Interrupt? {
        // Killing a pipe child ignores errors, killing a terminal reports them.
        return if entry.handle.Pty? && !ioOk then IoError else Killed;
      }
      if !entry.tty {
        return NeedsTty;
      }
      if entry.handle.Pipe? && !entry.handle.stdinOpen {
        return StdinClosed;
      }
      return if ioOk then Written else IoError;
    }
  }

  // ------------------------------------------------------------- across regions

  lemma {:induction false} RunKeepsTurns(s: State, actions: seq<Action>)
    requires Inv(s) && ValidRun(s, actions)
    ensures TurnsKept(s, Run(s, actions))
  {
    if actions != [] {
      var front := actions[..|actions| - 1];
      RunKeepsTurns(s, front);
      RunKeepsInv(s, front);
      StepKeepsTurns(Run(s, front), actions[|actions| - 1]);
    }
  }

  /**
    A session id never changes hands: whoever passed the ownership check of `write_stdin` polls,
    after any interleaving, either the same turn's session under that id or none.
   */
  lemma SessionKeepsOwner(turns: set<Turn>, before: seq<Action>, between: seq<Action>, sid: Sid)
    requires ValidRun(Init(turns), before) && ValidRun(Run(Init(turns), before), between)
    requires sid in Run(Init(turns), before).sessions
    requires sid in Run(Run(Init(turns), before), between).sessions
    ensures Run(Run(Init(turns), before), between).sessions[sid].owner == Run(Init(turns), before).sessions[sid].owner
  {
    var s := Run(Init(turns), before);
    InitInv(turns);
    RunKeepsInv(Init(turns), before);
    RunKeepsInv(s, between);
    RunKeepsTurns(s, between);
    assert Placed(s, sid) && Placed(Run(s, between), sid);
  }
}
