/**
  The watch registry (watch.rs): who is told when an actor stops. A map from targets to sets of
  watchers stands for a relation; an entry that becomes empty is taken out.
 */
module WatchRegistry {
  import opened Basics

  type ActorId = nat

  /** `watcher` is told when `target` stops. */
  datatype Pair = Pair(watcher: ActorId, target: ActorId)

  /** What came of sending one termination message. */
  datatype Attempt = Attempt(watcher: ActorId, accepted: bool)

  type Watchers = map<ActorId, set<ActorId>>

  predicate NoEmptyEntry(m: Watchers) {
    forall t :: t in m ==> m[t] != {}
  }

  predicate Holds(m: Watchers, p: Pair) {
    p.target in m && p.watcher in m[p.target]
  }

  /** The map is the relation `r`, with no entry to spare. */
  ghost predicate Represents(m: Watchers, r: set<Pair>) {
    NoEmptyEntry(m) && forall p :: p in r <==> Holds(m, p)
  }

  /** Only one map represents a relation, so the queries answer from the relation. */
  lemma RepresentationIsUnique(m: Watchers, n: Watchers, r: set<Pair>)
    requires Represents(m, r) && Represents(n, r)
    ensures m == n
  {
    EntriesAgree(m, n, r);
    EntriesAgree(n, m, r);
    forall t | t in m
      ensures m[t] == n[t]
    {
      forall w ensures w in m[t] <==> w in n[t] {
        assert Holds(m, Pair(w, t)) <==> Holds(n, Pair(w, t));
      }
    }
  }

  lemma EntriesAgree(m: Watchers, n: Watchers, r: set<Pair>)
    requires Represents(m, r) && Represents(n, r)
    ensures m.Keys <= n.Keys
  {
    forall t | t in m
      ensures t in n
    {
      var w :| w in m[t];
      assert Holds(m, Pair(w, t));
      assert Pair(w, t) in r;
    }
  }

  datatype Op =
    | Watch(watcher: ActorId, target: ActorId)
    | Unwatch(watcher: ActorId, target: ActorId)
    | Stop(actor: ActorId)
    | Remove(actor: ActorId)
    | Clear

  /** The relation after one operation; `Stop` is the termination of an actor. */
  function Next(r: set<Pair>, op: Op): set<Pair> {
    match op
    case Watch(w, t) => r + {Pair(w, t)}
    case Unwatch(w, t) => r - {Pair(w, t)}
    case Stop(a) => set p | p in r && p.target != a
    case Remove(a) => set p | p in r && p.target != a && p.watcher != a
    case Clear => {}
  }

  class ActorLifecycle {
    var watchers: Watchers
    /** The plain relation the map stands for. */
    ghost var relation: set<Pair>

    ghost predicate Valid()
      reads this
    {
      Represents(watchers, relation)
    }

    constructor ()
      ensures Valid() && relation == {}
    {
      watchers, relation := map[], {};
    }

    method Watch(watcher: ActorId, target: ActorId)
      requires Valid()
      modifies this
      ensures Valid() && relation == Next(old(relation), Op.Watch(watcher, target))
    {
      var known := if target in watchers then watchers[target] else {};
      watchers := watchers[target := known + {watcher}];
      relation := relation + {Pair(watcher, target)};
    }

    method Unwatch(watcher: ActorId, target: ActorId)
      requires Valid()
      modifies this
      ensures Valid() && relation == Next(old(relation), Op.Unwatch(watcher, target))
    {
      if target in watchers {
        var left := watchers[target] - {watcher};
        assert forall w :: w in watchers[target] ==> w == watcher || w in left;
        watchers := watchers[target := left];
        if left == {} {
          watchers := watchers - {target};
        }
      }
      assert forall p :: Holds(watchers, p) <==>
        Holds(old(watchers), p) && !(p.watcher == watcher && p.target == target);
      relation := relation - {Pair(watcher, target)};
    }

    /**
      Forget the watchers of a stopped actor and try to tell each of them that has a mailbox, once.
      They are forgotten even when the message cannot be packed, and a full mailbox does not keep
      the others from being told.
     */
    method NotifyWatchers(actor: ActorId, packs: bool, senders: set<ActorId>, full: set<ActorId>)
      returns (attempts: seq<Attempt>)
      requires Valid()
      modifies this
      ensures Valid() && relation == Next(old(relation), Stop(actor))
      ensures forall w, ok :: Attempt(w, ok) in attempts <==>
                packs && Pair(w, actor) in old(relation) && w in senders && ok == (w !in full)
      ensures forall i, j :: 0 <= i < j < |attempts| ==> attempts[i].watcher != attempts[j].watcher
    {
      var told := if actor in watchers then watchers[actor] else {};
      assert forall w :: w in told <==> Holds(watchers, Pair(w, actor));
      watchers := watchers - {actor};
      relation := set p | p in relation && p.target != actor;
      attempts := [];
      if told == {} || !packs {
        return;
      }
      var rest := told;
      while rest != {}
        invariant rest <= told
        invariant forall w, ok :: Attempt(w, ok) in attempts <==> w in told - rest && w in senders && ok == (w !in full)
        invariant forall i, j :: 0 <= i < j < |attempts| ==> attempts[i].watcher != attempts[j].watcher
        decreases rest
      {
        var w :| w in rest;
        rest := rest - {w};
        if w in senders {
          assert forall i :: 0 <= i < |attempts| ==> attempts[i] in attempts && attempts[i].watcher != w by {
            forall i | 0 <= i < |attempts|
              ensures attempts[i].watcher != w
            {
              assert Attempt(attempts[i].watcher, attempts[i].accepted) in attempts;
            }
          }
          attempts := attempts + [Attempt(w, w !in full)];
        }
      }
    }

    /** Forget every pair that mentions the actor, on either side. */
    method RemoveActor(actor: ActorId)
      requires Valid()
      modifies this
      ensures Valid() && relation == Next(old(relation), Remove(actor))
    {
      watchers := watchers - {actor};
      var emptyTargets := DropWatcher(actor);
      var i := 0;
      ghost var dropped := watchers;
      while i < |emptyTargets|
        invariant i <= |emptyTargets| && relation == old(relation)
        invariant watchers == dropped - set t | t in emptyTargets[..i]
      {
        watchers := watchers - {emptyTargets[i]};
        assert emptyTargets[..i + 1] == emptyTargets[..i] + [emptyTargets[i]];
        i := i + 1;
      }
      assert emptyTargets[..i] == emptyTargets;
      relation := set p | p in relation && p.target != actor && p.watcher != actor;
      assert forall p :: Holds(watchers, p) <==> Holds(dropped, p);
    }

    /** Take `actor` out of every set, and list the sets that became empty. */
    method DropWatcher(actor: ActorId) returns (emptyTargets: seq<ActorId>)
      requires NoEmptyEntry(watchers)
      modifies this`watchers
      ensures watchers == map t | t in old(watchers) :: old(watchers)[t] - {actor}
      ensures forall t :: t in emptyTargets <==> t in watchers && watchers[t] == {}
    {
      emptyTargets := [];
      var rest := watchers.Keys;
      while rest != {}
        invariant rest <= old(watchers.Keys)
        invariant watchers == map t | t in old(watchers) ::
                    if t in rest then old(watchers)[t] else old(watchers)[t] - {actor}
        invariant forall t :: t in emptyTargets <==> t in watchers.Keys - rest && watchers[t] == {}
        decreases rest
      {
        var t :| t in rest;
        rest := rest - {t};
        watchers := watchers[t := watchers[t] - {actor}];
        if watchers[t] == {} {
          emptyTargets := emptyTargets + [t];
        }
      }
    }

    method Clear()
      requires Valid()
      modifies this
      ensures Valid() && relation == Next(old(relation), Op.Clear)
    {
      watchers, relation := map[], {};
    }

    method WatchedCount() returns (n: nat)
      requires Valid()
      ensures n == |set p | p in relation :: p.target|
    {
      n := |watchers|;
      assert watchers.Keys == set p | p in relation :: p.target by {
        forall t | t in watchers
          ensures exists p :: p in relation && p.target == t
        {
          var w :| w in watchers[t];
          assert Holds(watchers, Pair(w, t));
        }
      }
    }

    method GetWatchers(target: ActorId) returns (found: set<ActorId>)
      requires Valid()
      ensures forall w :: w in found <==> Pair(w, target) in relation
    {
      found := if target in watchers then watchers[target] else {};
      assert forall w :: w in found <==> Holds(watchers, Pair(w, target));
    }

    method IsWatched(target: ActorId) returns (yes: bool)
      requires Valid()
      ensures yes <==> exists w :: Pair(w, target) in relation
    {
      yes := target in watchers;
      if yes {
        var w :| w in watchers[target];
        assert Holds(watchers, Pair(w, target));
      }
    }
  }

  // ---------------------------------------------------------------- whole runs

  function After(ops: seq<Op>): set<Pair> {
    if ops == [] then {} else Next(After(ops[..|ops| - 1]), ops[|ops| - 1])
  }

  /** The operations that end a watch. */
  predicate Ends(op: Op, p: Pair) {
    match op
    case Watch(_, _) => false
    case Unwatch(w, t) => p == Pair(w, t)
    case Stop(a) => p.target == a
    case Remove(a) => p.target == a || p.watcher == a
    case Clear => true
  }

  /** `p` was watched at `i` and nothing ended it since. */
  predicate StandsFrom(ops: seq<Op>, p: Pair, i: int) {
    0 <= i < |ops| && ops[i] == Op.Watch(p.watcher, p.target) && forall k :: i < k < |ops| ==> !Ends(ops[k], p)
  }

  /** After any operations, an actor watches another exactly when it once began to and nothing ended it since. */
  lemma {:induction false} WatchesIff(ops: seq<Op>, p: Pair)
    ensures p in After(ops) <==> exists i :: StandsFrom(ops, p, i)
  {
    if ops != [] {
      var front := ops[..|ops| - 1];
      WatchesIff(front, p);
      forall i | StandsFrom(front, p, i) && !Ends(ops[|ops| - 1], p)
        ensures StandsFrom(ops, p, i)
      {
      }
      forall i | StandsFrom(ops, p, i) && i < |front|
        ensures StandsFrom(front, p, i)
      {
        assert ops[i] == front[i];
        assert forall k :: i < k < |front| ==> ops[k] == front[k];
      }
      if ops[|ops| - 1] == Op.Watch(p.watcher, p.target) {
        assert StandsFrom(ops, p, |ops| - 1);
      }
    }
  }

  /** A stopped or removed actor is watched by nobody until somebody watches it again. */
  lemma NoWatchersAfterStop(ops: seq<Op>, later: seq<Op>, last: Op, w: ActorId, a: ActorId)
    requires last in {Stop(a), Remove(a), Op.Clear} && Op.Watch(w, a) !in later
    ensures Pair(w, a) !in After(ops + [last] + later)
  {
    var all := ops + [last] + later;
    WatchesIff(all, Pair(w, a));
    assert all[|ops|] == last;
    forall i | 0 <= i < |all|
      ensures !StandsFrom(all, Pair(w, a), i)
    {
      if i > |ops| {
        assert all[i] == later[i - |ops| - 1] && all[i] in later;
      }
    }
  }

  /** A removed actor watches nobody and nobody watches it until one of them begins again; nobody else is affected. */
  lemma RemovedIsGone(ops: seq<Op>, later: seq<Op>, a: ActorId, p: Pair)
    requires forall op :: op in later && op.Watch? ==> op.watcher != a && op.target != a
    ensures p.watcher == a || p.target == a ==> p !in After(ops + [Remove(a)] + later)
    ensures p.watcher != a && p.target != a ==> (p in After(ops + [Remove(a)]) <==> p in After(ops))
  {
    assert (ops + [Remove(a)])[..|ops|] == ops;
    if p.watcher == a || p.target == a {
      var all := ops + [Remove(a)] + later;
      WatchesIff(all, p);
      assert all[|ops|] == Remove(a);
      forall i | 0 <= i < |all|
        ensures !StandsFrom(all, p, i)
      {
        if i > |ops| {
          assert all[i] == later[i - |ops| - 1] && all[i] in later;
        }
      }
    }
  }
}
