/**
  The resource registry of one turn (turn.rs): entries behind a mutex, a broadcast
  notification, and waiters that loop over "note, count, park". The protocol is a step
  machine with one step for each lock region or atomic operation.

  `Notify::notify_waiters` is modelled by a generation counter: a `Notified` future made at
  generation g is ready exactly when the counter has moved past g, parked or not.
 */
module TurnRegistry {
  import opened Basics

  datatype Resource = Exec(session: nat) | Passive

  datatype WaiterPc =
    | Noted(generation: nat)                 // holds a `notified()` future, has not counted yet
    | Counted(generation: nat, empty: bool)  // has read the number of entries
    | Parked(generation: nat)                // awaits the future
    | TimedOut                               // the timer won; counts once more
    | Returned(idle: bool)

  /** `wait_for_idle` is bounded by a timeout, `wait_for_idle_unbounded` is not. */
  datatype Waiter = Waiter(bounded: bool, pc: WaiterPc)

  datatype Registry = Registry(
    nextId: nat,
    entries: map<nat, Resource>,
    generation: nat,
    releasing: set<nat>,        // removed from `entries`, `notify_waiters` still to come
    waiters: map<nat, Waiter>
  )

  const FRESH := Registry(1, map[], 0, {}, map[])

  datatype Action =
    | Register(resource: Resource)
    | Remove(id: nat)
    | Notify(id: nat)
    | StartWait(w: nat, bounded: bool)
    | Count(w: nat)
    | Decide(w: nat, late: bool)
    | Wake(w: nat)
    | Expire(w: nat)
    | CountLast(w: nat)

  predicate Enabled(r: Registry, a: Action) {
    match a
    case Register(_) => true
    case Remove(id) => id in r.entries
    case Notify(id) => id in r.releasing
    case StartWait(w, _) => w !in r.waiters
    case Count(w) => w in r.waiters && r.waiters[w].pc.Noted?
    case Decide(w, _) => w in r.waiters && r.waiters[w].pc.Counted?
    case Wake(w) => w in r.waiters && r.waiters[w].pc.Parked? && r.generation > r.waiters[w].pc.generation
    case Expire(w) => w in r.waiters && r.waiters[w].pc.Parked? && r.waiters[w].bounded
    case CountLast(w) => w in r.waiters && r.waiters[w].pc.TimedOut?
  }

  function Move(r: Registry, w: nat, pc: WaiterPc): Registry
    requires w in r.waiters
  {
    r.(waiters := r.waiters[w := r.waiters[w].(pc := pc)])
  }

  function Apply(r: Registry, a: Action): Registry
    requires Enabled(r, a)
  {
    match a
    case Register(resource) => r.(nextId := r.nextId + 1, entries := r.entries[r.nextId := resource])
    case Remove(id) => r.(entries := r.entries - {id}, releasing := r.releasing + {id})
    case Notify(id) => r.(releasing := r.releasing - {id}, generation := r.generation + 1)
    case StartWait(w, bounded) => r.(waiters := r.waiters[w := Waiter(bounded, Noted(r.generation))])
    case Count(w) => Move(r, w, Counted(r.waiters[w].pc.generation, r.entries == map[]))
    case Decide(w, late) =>
      var waiter := r.waiters[w];
      if waiter.pc.empty then Move(r, w, Returned(true))
      else if waiter.bounded && late then Move(r, w, Returned(false))
      else Move(r, w, Parked(waiter.pc.generation))
    case Wake(w) => Move(r, w, Noted(r.generation))
    case Expire(w) => Move(r, w, TimedOut)
    case CountLast(w) => Move(r, w, Returned(r.entries == map[]))
  }

  /** A run: every action is enabled where it happens. */
  predicate ValidRun(r: Registry, actions: seq<Action>)
    decreases |actions|, 0
  {
    actions == [] ||
    (var front := actions[..|actions| - 1];
     ValidRun(r, front) && Enabled(Run(r, front), actions[|actions| - 1]))
  }

  function Run(r: Registry, actions: seq<Action>): Registry
    requires ValidRun(r, actions)
    decreases |actions|, 1
  {
    if actions == [] then r else Apply(Run(r, actions[..|actions| - 1]), actions[|actions| - 1])
  }

  // ---------------------------------------------------------------- invariant

  /** Ids are fresh, and an id being released is no longer an entry. */
  ghost predicate IdsFresh(r: Registry) {
    && (forall id :: id in r.entries ==> id < r.nextId)
    && (forall id :: id in r.releasing ==> id < r.nextId && id !in r.entries)
  }

  /**
    A waiter that saw entries and now waits for a future of the current generation: either
    entries remain, or a releaser is between its remove and its notification.
   */
  ghost predicate WillBeWoken(r: Registry, pc: WaiterPc) {
    match pc
    case Noted(g) => g <= r.generation
    case Counted(g, empty) =>
      g <= r.generation && (!empty && g == r.generation ==> r.entries != map[] || r.releasing != {})
    case Parked(g) => g <= r.generation && (g == r.generation ==> r.entries != map[] || r.releasing != {})
    case TimedOut => true
    case Returned(_) => true
  }

  ghost predicate Inv(r: Registry) {
    && IdsFresh(r)
    && forall w :: w in r.waiters ==> WillBeWoken(r, r.waiters[w].pc)
  }

  lemma StepKeepsInv(r: Registry, a: Action)
    requires Inv(r) && Enabled(r, a)
    ensures Inv(Apply(r, a))
  {
    var r' := Apply(r, a);
    if a.Register? {
      assert r.nextId in r'.entries;
    }
    if a.Remove? {
      assert a.id in r'.releasing;
    }
    forall w | w in r'.waiters
      ensures WillBeWoken(r', r'.waiters[w].pc)
    {
      assert w in r.waiters ==> WillBeWoken(r, r.waiters[w].pc);
    }
  }

  lemma {:induction false} RunKeepsInv(r: Registry, actions: seq<Action>)
    requires Inv(r) && ValidRun(r, actions)
    ensures Inv(Run(r, actions))
  {
    if actions != [] {
      var front := actions[..|actions| - 1];
      RunKeepsInv(r, front);
      StepKeepsInv(Run(r, front), actions[|actions| - 1]);
    }
  }

  /**
    No lost wakeup. In every reachable state, a waiter parked after seeing entries while the
    registry is now empty has been notified, or some releaser still has its notification to send.
   */
  lemma NoLostWakeup(actions: seq<Action>, w: nat)
    requires ValidRun(FRESH, actions)
    requires var r := Run(FRESH, actions); w in r.waiters && r.waiters[w].pc.Parked? && r.entries == map[]
    ensures var r := Run(FRESH, actions); Enabled(r, Wake(w)) || exists id :: Enabled(r, Notify(id))
  {
    RunKeepsInv(FRESH, actions);
    var r := Run(FRESH, actions);
    assert WillBeWoken(r, r.waiters[w].pc);
    if r.releasing != {} {
      var id :| id in r.releasing;
      assert Enabled(r, Notify(id));
    }
  }

  // ------------------------------------------------------- what a waiter reports

  /** The waiter's last count saw entries, or it has reported so. */
  predicate SawBusy(r: Registry, w: nat) {
    w in r.waiters && ((r.waiters[w].pc.Counted? && !r.waiters[w].pc.empty) || r.waiters[w].pc == Returned(false))
  }

  lemma SawBusyStep(r: Registry, a: Action, w: nat)
    requires Enabled(r, a) && SawBusy(Apply(r, a), w)
    ensures SawBusy(r, w) || (w in r.waiters && r.entries != map[])
  {
  }

  /** The waiter's last count saw no entry, or it has reported idle. */
  predicate SawIdle(r: Registry, w: nat) {
    w in r.waiters && ((r.waiters[w].pc.Counted? && r.waiters[w].pc.empty) || r.waiters[w].pc == Returned(true))
  }

  lemma SawIdleStep(r: Registry, a: Action, w: nat)
    requires Enabled(r, a) && SawIdle(Apply(r, a), w)
    ensures SawIdle(r, w) || (w in r.waiters && r.entries == map[])
  {
  }

  /** A count is of the entries there are, and a waiter that counted none goes on to report idle, whatever its timer does. */
  lemma CountIsTrue(r: Registry, a: Action, w: nat)
    requires Enabled(r, a) && w in r.waiters
    ensures SawIdle(r, w) ==> SawIdle(Apply(r, a), w)
    ensures a == Count(w) || a == CountLast(w) ==>
              (if r.entries == map[] then SawIdle(Apply(r, a), w) else SawBusy(Apply(r, a), w))
    ensures a.Decide? && a.w == w ==>
              (Apply(r, a).waiters[w].pc == Returned(true) <==> SawIdle(r, w))
              && (Apply(r, a).waiters[w].pc == Returned(false) <==> SawBusy(r, w) && r.waiters[w].bounded && a.late)
  {
  }

  /** Only a bounded wait runs out of time. */
  ghost predicate OnlyBoundedGiveUp(r: Registry) {
    forall w :: w in r.waiters && (r.waiters[w].pc.TimedOut? || r.waiters[w].pc == Returned(false)) ==>
      r.waiters[w].bounded
  }

  lemma {:induction false} RunKeepsIdle(r: Registry, actions: seq<Action>, w: nat)
    requires ValidRun(r, actions) && SawIdle(r, w)
    ensures SawIdle(Run(r, actions), w)
  {
    if actions != [] {
      var front := actions[..|actions| - 1];
      RunKeepsIdle(r, front, w);
      CountIsTrue(Run(r, front), actions[|actions| - 1], w);
    }
  }

  lemma {:induction false} BusyIsBounded(actions: seq<Action>)
    requires ValidRun(FRESH, actions)
    ensures OnlyBoundedGiveUp(Run(FRESH, actions))
  {
    if actions != [] {
      BusyIsBounded(actions[..|actions| - 1]);
      StepKeepsBounded(Run(FRESH, actions[..|actions| - 1]), actions[|actions| - 1]);
    }
  }

  lemma StepKeepsBounded(r: Registry, a: Action)
    requires Enabled(r, a) && OnlyBoundedGiveUp(r)
    ensures OnlyBoundedGiveUp(Apply(r, a))
  {
  }

  /**
    A waiter that reports busy is bounded and was waiting at an instant when the registry was not
    empty; so an unbounded one never does.
   */
  lemma BusyWasBusy(actions: seq<Action>, w: nat) returns (k: nat)
    requires ValidRun(FRESH, actions)
    requires var r := Run(FRESH, actions); w in r.waiters && r.waiters[w].pc == Returned(false)
    ensures Run(FRESH, actions).waiters[w].bounded
    ensures k <= |actions| && ValidRun(FRESH, actions[..k])
    ensures w in Run(FRESH, actions[..k]).waiters && Run(FRESH, actions[..k]).entries != map[]
  {
    BusyIsBounded(actions);
    k := BusyInstant(actions, w);
  }

  lemma {:induction false} BusyInstant(actions: seq<Action>, w: nat) returns (k: nat)
    requires ValidRun(FRESH, actions) && SawBusy(Run(FRESH, actions), w)
    ensures k <= |actions| && ValidRun(FRESH, actions[..k])
    ensures w in Run(FRESH, actions[..k]).waiters && Run(FRESH, actions[..k]).entries != map[]
  {
    var n := |actions| - 1;
    var front := actions[..n];
    SawBusyStep(Run(FRESH, front), actions[n], w);
    if !SawBusy(Run(FRESH, front), w) {
      return n;
    }
    k := BusyInstant(front, w);
    assert front[..k] == actions[..k];
  }

  /** A woken waiter notes afresh: parked again over entries, it is not woken by the same notification. */
  lemma WokenOnce(r: Registry, w: nat)
    requires Enabled(r, Wake(w)) && r.entries != map[]
    ensures Enabled(Apply(r, Wake(w)), Count(w))
    ensures Enabled(Apply(Apply(r, Wake(w)), Count(w)), Decide(w, false))
    ensures var parked := Apply(Apply(Apply(r, Wake(w)), Count(w)), Decide(w, false));
            w in parked.waiters && parked.waiters[w].pc.Parked? && !Enabled(parked, Wake(w))
  {
  }

  // ----------------------------------------------------------- up to the report

  /** What a waiter does next whose timer does not fire. */
  function NextStep(w: nat, pc: WaiterPc): Action {
    match pc
    case Counted(_, _) => Decide(w, false)
    case Parked(_) => Wake(w)
    case _ => Count(w)
  }

  function StepsLeft(pc: WaiterPc): nat {
    match pc
    case Counted(_, empty) => if empty then 1 else 5
    case Noted(_) => 2
    case Parked(_) => 3
    case _ => 0
  }

  /** Neither timed out nor told that the turn is busy. */
  predicate StillWaits(pc: WaiterPc) {
    !pc.TimedOut? && (pc.Returned? ==> pc.idle)
  }

  ghost predicate Finishing(r: Registry, w: nat) {
    Inv(r) && r.entries == map[] && r.releasing == {}
    && w in r.waiters && StillWaits(r.waiters[w].pc)
  }

  lemma FinishingStep(r: Registry, w: nat)
    requires Finishing(r, w) && !r.waiters[w].pc.Returned?
    ensures var a := NextStep(w, r.waiters[w].pc);
            && Enabled(r, a) && Finishing(Apply(r, a), w)
            && StepsLeft(Apply(r, a).waiters[w].pc) < StepsLeft(r.waiters[w].pc)
  {
  }

  /**
    Once the registry is empty and every releaser is through, a waiter whose timer does not fire
    reports idle after at most five steps, all of them its own.
   */
  lemma EmptyRegistryLetsWaiterFinish(r: Registry, w: nat, done: seq<Action>) returns (steps: seq<Action>)
    requires ValidRun(r, done) && Finishing(Run(r, done), w)
    ensures ValidRun(r, steps) && done <= steps && |steps| <= |done| + 5
    ensures w in Run(r, steps).waiters && Run(r, steps).waiters[w].pc == Returned(true)
    ensures forall a :: a in steps[|done|..] ==> a == Count(w) || a == Decide(w, false) || a == Wake(w)
    ensures |steps| <= |done| + StepsLeft(Run(r, done).waiters[w].pc)
    decreases StepsLeft(Run(r, done).waiters[w].pc)
  {
    hide ValidRun, Run, Apply, Inv;
    var now := Run(r, done);
    if now.waiters[w].pc.Returned? {
      return done;
    }
    var a := NextStep(w, now.waiters[w].pc);
    FinishingStep(now, w);
    RunSnoc(r, done, a);
    steps := EmptyRegistryLetsWaiterFinish(r, w, done + [a]);
    assert steps[|done|..] == [a] + steps[|done| + 1..];
  }

  lemma RunSnoc(r: Registry, actions: seq<Action>, a: Action)
    requires ValidRun(r, actions) && Enabled(Run(r, actions), a)
    ensures ValidRun(r, actions + [a]) && Run(r, actions + [a]) == Apply(Run(r, actions), a)
  {
  }

  // ------------------------------------------------ the registry as the code keeps it

  class TurnResourceRegistry {
    var nextId: nat
    var entries: map<nat, Resource>
    var notifications: nat

    /** What the step machine sees when no release is half done; waiters live in their own tasks. */
    ghost function Model(): Registry
      reads this
    {
      Registry(nextId, entries, notifications, {}, map[])
    }

    constructor ()
      ensures Model() == FRESH
    {
      nextId, entries, notifications := 1, map[], 0;
    }

    method Register(resource: Resource) returns (id: nat)
      modifies this
      ensures id == old(nextId) && Model() == Apply(old(Model()), Action.Register(resource))
    {
      id := nextId;
      nextId := nextId + 1;
      entries := entries[id := resource];
    }

    /** Dropping a guard: remove, and notify only if the entry was still there. */
    method Release(id: nat)
      modifies this
      ensures id in old(entries) ==>
                Model() == Apply(Apply(old(Model()), Remove(id)), Notify(id))
      ensures id !in old(entries) ==> Model() == old(Model())
    {
      if id in entries {
        entries := entries - {id};
        notifications := notifications + 1;
      }
    }

    method ActiveCount() returns (count: nat)
      ensures count == |entries| && (count == 0 <==> entries == map[])
    {
      count := |entries|;
      assert |entries| == 0 ==> entries.Keys == {};
    }

    /**
      Snapshot the cancellers, then call each once. A passive canceller does nothing; that of
      an exec session asks for a task that stops it. The entries stay as they are.
     */
    method CancelAll() returns (stops: seq<nat>)
      ensures forall sid :: multiset(stops)[sid] == |EntriesOf(entries, entries.Keys, sid)|
    {
      var snapshot := entries;
      var rest := snapshot.Keys;
      stops := [];
      while rest != {}
        invariant rest <= snapshot.Keys
        invariant forall sid :: multiset(stops)[sid] == |EntriesOf(snapshot, snapshot.Keys - rest, sid)|
        decreases rest
      {
        var id :| id in rest;
        ghost var called := snapshot.Keys - rest;
        rest := rest - {id};
        assert snapshot.Keys - rest == called + {id};
        forall sid { OneMoreEntry(snapshot, called, id, sid); }
        if snapshot[id].Exec? {
          stops := stops + [snapshot[id].session];
        }
      }
      assert snapshot.Keys - rest == snapshot.Keys;
    }
  }

  /** The entries among `ids` whose canceller stops the session `sid`. */
  function EntriesOf(entries: map<nat, Resource>, ids: set<nat>, sid: nat): set<nat>
    requires ids <= entries.Keys
  {
    set id | id in ids && entries[id] == Exec(sid)
  }

  lemma OneMoreEntry(entries: map<nat, Resource>, ids: set<nat>, id: nat, sid: nat)
    requires ids <= entries.Keys && id in entries && id !in ids
    ensures |EntriesOf(entries, ids + {id}, sid)|
         == |EntriesOf(entries, ids, sid)| + if entries[id] == Exec(sid) then 1 else 0
  {
    var more := if entries[id] == Exec(sid) then {id} else {};
    assert EntriesOf(entries, ids + {id}, sid) == EntriesOf(entries, ids, sid) + more;
  }
}
