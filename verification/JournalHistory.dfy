/** What holds over every run of edits, checkpoints and rollbacks from an empty journal. */
module JournalHistory {
  import opened Basics
  import opened RevisionIds
  import opened Journal

  /** `Write` and `Delete` are edits of the workspace outside the journal's own directory. */
  datatype Op = Write(path: Path, bytes: Bytes) | Delete(path: Path) | Checkpoint | Rollback(target: Option<string>)

  /** A rollback to a missing revision, or to none, changes nothing. */
  ghost function Apply(s: State, op: Op): State {
    match op
    case Write(p, bytes) => s.(files := s.files[p := bytes])
    case Delete(p) => s.(files := s.files - {p})
    case Checkpoint => Checkpointed(s)
    case Rollback(target) =>
      var id := if target.Some? then target else s.head;
      if id.Some? && id.value in s.revisions then RolledBack(s, id.value) else s
  }

  ghost function Run(s: State, ops: seq<Op>): State {
    if ops == [] then s else Apply(Run(s, ops[..|ops| - 1]), ops[|ops| - 1])
  }

  function Checkpoints(ops: seq<Op>): nat {
    if ops == [] then 0
    else Checkpoints(ops[..|ops| - 1]) + if ops[|ops| - 1].Checkpoint? then 1 else 0
  }

  /** Ids from 1 on; the ten-thousandth is the last new one. */
  const LIMIT := 10000

  function IdsUpTo(n: nat): set<string> {
    set i: nat | 1 <= i <= n :: Format(i)
  }

  lemma LastOfIds(n: nat)
    requires 1 <= n <= LIMIT
    ensures IsLast(IdsUpTo(n), Format(Min(n, LIMIT - 1)))
  {
    var m := Min(n, LIMIT - 1);
    assert Format(m) in IdsUpTo(n);
    forall x | x in IdsUpTo(n)
      ensures AtMost(x, Format(m))
    {
      var i: nat :| 1 <= i <= n && x == Format(i);
      if i < m {
        FormatKeepsOrder(i, m);
      } else if i == LIMIT {
        FiveDigitsSortLow();
      }
    }
  }

  /** After `c` checkpoints, the id the next one gets. */
  function IdAfter(c: nat): string {
    Format(Min(c, LIMIT - 1) + 1)
  }

  lemma NextIdAfter(c: nat)
    ensures NextId(IdsUpTo(Min(c, LIMIT))) == IdAfter(c)
  {
    if c == 0 {
      assert IdsUpTo(0) == {};
    } else {
      var n := Min(c, LIMIT);
      LastOfIds(n);
      NextIdIs(IdsUpTo(n), Format(Min(n, LIMIT - 1)));
      ParseOfFormat(Min(n, LIMIT - 1));
    }
  }

  lemma OneMoreId(c: nat)
    ensures IdsUpTo(c) + {Format(c + 1)} == IdsUpTo(c + 1)
  {
  }

  /** The next id is new exactly during the first ten thousand checkpoints. */
  lemma IdIsFresh(c: nat)
    ensures IdAfter(c) !in IdsUpTo(Min(c, LIMIT)) <==> c < LIMIT
    ensures IdsUpTo(Min(c, LIMIT)) + {IdAfter(c)} == IdsUpTo(Min(c + 1, LIMIT))
  {
    if c < LIMIT {
      if IdAfter(c) in IdsUpTo(c) {
        var i: nat :| 1 <= i <= c && Format(c + 1) == Format(i);
        FormatIsInjective(i, c + 1);
      }
      OneMoreId(c);
    } else {
      assert IdAfter(c) == Format(LIMIT);
    }
  }

  // -------------------------------------------------------------- the invariant

  /** HEAD and every parent name existing revisions. */
  ghost predicate Linked(s: State) {
    && (s.head.Some? ==> s.head.value in s.revisions)
    && (forall id :: id in s.revisions && s.revisions[id].parent.Some? ==> s.revisions[id].parent.value in s.revisions)
  }

  /** Recorded paths are kept paths, and their copies are there. */
  ghost predicate Complete(s: State) {
    forall id, p :: id in s.revisions && p in s.revisions[id].recorded ==>
      !ShouldSkip(p) && p in s.revisions[id].stored
  }

  ghost predicate Inv(s: State, c: nat) {
    s.revisions.Keys == IdsUpTo(Min(c, LIMIT)) && Linked(s) && Complete(s)
  }

  lemma CheckpointKeepsLinks(s: State)
    requires Linked(s) && Complete(s)
    ensures Linked(Checkpointed(s)) && Complete(Checkpointed(s))
  {
  }

  lemma CheckpointKeepsInv(s: State, c: nat)
    requires Inv(s, c)
    ensures Inv(Checkpointed(s), c + 1)
    ensures Checkpointed(s).head == Some(IdAfter(c))
  {
    NextIdAfter(c);
    IdIsFresh(c);
    CheckpointKeepsLinks(s);
    assert Checkpointed(s).revisions.Keys == s.revisions.Keys + {NextId(s.revisions.Keys)};
  }

  lemma StepKeepsInv(s: State, op: Op, c: nat)
    requires Inv(s, c)
    ensures Inv(Apply(s, op), if op.Checkpoint? then c + 1 else c)
  {
    if op.Checkpoint? {
      CheckpointKeepsInv(s, c);
    }
  }

  lemma {:induction false} RunKeepsInv(files: map<Path, Bytes>, ops: seq<Op>)
    ensures Inv(Run(Empty(files), ops), Checkpoints(ops))
  {
    if ops == [] {
      assert IdsUpTo(0) == {};
    } else {
      var front := ops[..|ops| - 1];
      RunKeepsInv(files, front);
      StepKeepsInv(Run(Empty(files), front), ops[|ops| - 1], Checkpoints(front));
    }
  }

  /** A checkpoint gets an id of its own exactly when fewer than ten thousand came before it. */
  lemma CheckpointIsFreshIff(files: map<Path, Bytes>, ops: seq<Op>)
    ensures var s := Run(Empty(files), ops);
            && NextId(s.revisions.Keys) == IdAfter(Checkpoints(ops))
            && (NextId(s.revisions.Keys) !in s.revisions <==> Checkpoints(ops) < LIMIT)
  {
    RunKeepsInv(files, ops);
    NextIdAfter(Checkpoints(ops));
    IdIsFresh(Checkpoints(ops));
  }

  // ----------------------------------------------------------------- parents

  /** Every parent is numerically smaller than its child. */
  ghost predicate ParentsSmaller(s: State) {
    forall id :: id in s.revisions && s.revisions[id].parent.Some? ==>
      NumberOf(s.revisions[id].parent.value) < NumberOf(id)
  }

  lemma NumbersUpTo(n: nat, id: string)
    requires id in IdsUpTo(n) && n <= LIMIT
    ensures 1 <= NumberOf(id) <= n && id == Format(NumberOf(id))
  {
    var i: nat :| 1 <= i <= n && id == Format(i);
    ParseOfFormat(i);
  }

  lemma CheckpointKeepsParents(s: State, c: nat)
    requires Inv(s, c) && ParentsSmaller(s) && c < LIMIT
    ensures ParentsSmaller(Checkpointed(s))
  {
    var id := IdAfter(c);
    NextIdAfter(c);
    ParseOfFormat(c + 1);
    assert NumberOf(id) == c + 1;
    if s.head.Some? {
      NumbersUpTo(c, s.head.value);
    }
    NewParentIsSmaller(s, id);
  }

  lemma NewParentIsSmaller(s: State, id: string)
    requires ParentsSmaller(s) && NextId(s.revisions.Keys) == id
    requires s.head.Some? ==> NumberOf(s.head.value) < NumberOf(id)
    ensures ParentsSmaller(Checkpointed(s))
  {
    hide NextId, Kept, NumberOf;
    var s' := Checkpointed(s);
    forall x | x in s'.revisions && s'.revisions[x].parent.Some?
      ensures NumberOf(s'.revisions[x].parent.value) < NumberOf(x)
    {
      assert x != id ==> s'.revisions[x] == s.revisions[x];
    }
  }

  lemma {:induction false} ParentsAreSmaller(files: map<Path, Bytes>, ops: seq<Op>)
    requires Checkpoints(ops) <= LIMIT
    ensures ParentsSmaller(Run(Empty(files), ops))
  {
    if ops != [] {
      var front := ops[..|ops| - 1];
      ParentsAreSmaller(files, front);
      RunKeepsInv(files, front);
      if ops[|ops| - 1].Checkpoint? {
        CheckpointKeepsParents(Run(Empty(files), front), Checkpoints(front));
      }
    }
  }

  /** The revision reached from `id` by following `n` parents. */
  function Ancestor(s: State, id: string, n: nat): Option<string>
    decreases n
  {
    if n == 0 || id !in s.revisions then Some(id)
    else if s.revisions[id].parent.None? then None
    else Ancestor(s, s.revisions[id].parent.value, n - 1)
  }

  lemma {:induction false} WalkEnds(s: State, id: string)
    requires Linked(s) && ParentsSmaller(s) && id in s.revisions
    ensures Ancestor(s, id, NumberOf(id) + 1) == None
    decreases NumberOf(id)
  {
    var parent := s.revisions[id].parent;
    if parent.Some? {
      WalkEnds(s, parent.value);
      WalkStaysEnded(s, parent.value, NumberOf(parent.value) + 1, NumberOf(id));
    }
  }

  lemma {:induction false} WalkStaysEnded(s: State, id: string, n: nat, m: nat)
    requires n <= m && Ancestor(s, id, n) == None
    ensures Ancestor(s, id, m) == None
    decreases n
  {
    if s.revisions[id].parent.Some? {
      WalkStaysEnded(s, s.revisions[id].parent.value, n - 1, m - 1);
    }
  }

  /** Within the limit HEAD and all parents exist, and walking the parents from HEAD ends. */
  lemma HistoryIsSound(files: map<Path, Bytes>, ops: seq<Op>)
    requires Checkpoints(ops) <= LIMIT
    ensures var s := Run(Empty(files), ops);
            && Linked(s) && ParentsSmaller(s)
            && (s.head.Some? ==> Ancestor(s, s.head.value, NumberOf(s.head.value) + 1) == None)
  {
    RunKeepsInv(files, ops);
    ParentsAreSmaller(files, ops);
    var s := Run(Empty(files), ops);
    if s.head.Some? {
      WalkEnds(s, s.head.value);
    }
  }

  /** From the limit on, two checkpoints in a row make a revision its own parent. */
  lemma ParentLoopPastLimit(files: map<Path, Bytes>, ops: seq<Op>)
    requires Checkpoints(ops) + 1 >= LIMIT
    ensures var s := Run(Empty(files), ops + [Checkpoint] + [Checkpoint]);
            s.head.Some? && s.head.value in s.revisions && s.revisions[s.head.value].parent == s.head
  {
    RunKeepsInv(files, ops);
    RunSnoc(Empty(files), ops, Checkpoint);
    RunSnoc(Empty(files), ops + [Checkpoint], Checkpoint);
    SameIdTwice(Run(Empty(files), ops), Checkpoints(ops));
  }

  function OnlyCheckpoints(n: nat): seq<Op> {
    if n == 0 then [] else OnlyCheckpoints(n - 1) + [Checkpoint]
  }

  lemma {:induction false} CountOnlyCheckpoints(n: nat)
    ensures Checkpoints(OnlyCheckpoints(n)) == n
  {
    if n > 0 {
      CountOnlyCheckpoints(n - 1);
      assert OnlyCheckpoints(n)[..|OnlyCheckpoints(n)| - 1] == OnlyCheckpoints(n - 1);
    }
  }

  /** Parents are smaller in every run of `n` checkpoints exactly up to ten thousand of them. */
  lemma ParentsSmallerIff(files: map<Path, Bytes>, n: nat)
    ensures (forall ops :: Checkpoints(ops) == n ==> ParentsSmaller(Run(Empty(files), ops))) <==> n <= LIMIT
  {
    if n <= LIMIT {
      forall ops | Checkpoints(ops) == n ensures ParentsSmaller(Run(Empty(files), ops)) {
        ParentsAreSmaller(files, ops);
      }
    } else {
      CountOnlyCheckpoints(n);
      CountOnlyCheckpoints(n - 2);
      ParentLoopPastLimit(files, OnlyCheckpoints(n - 2));
      assert OnlyCheckpoints(n) == OnlyCheckpoints(n - 2) + [Checkpoint] + [Checkpoint];
      assert !ParentsSmaller(Run(Empty(files), OnlyCheckpoints(n)));
    }
  }

  lemma RunSnoc(s: State, ops: seq<Op>, op: Op)
    ensures Run(s, ops + [op]) == Apply(Run(s, ops), op)
    ensures Checkpoints(ops + [op]) == Checkpoints(ops) + if op.Checkpoint? then 1 else 0
  {
  }

  /** Whatever happens later, the revision a checkpoint of `s` made has the HEAD of `s` as its parent. */
  ghost predicate ParentKept(s: State, later: State) {
    var id := NextId(s.revisions.Keys);
    id in later.revisions && later.revisions[id].parent == s.head
  }

  lemma {:induction false} ParentIsHead(files: map<Path, Bytes>, before: seq<Op>, after: seq<Op>)
    requires Checkpoints(before) + 1 < LIMIT
    ensures var s := Run(Empty(files), before);
            ParentKept(s, Run(Checkpointed(s), after))
  {
    hide Checkpointed, Inv, IdsUpTo;
    var s := Run(Empty(files), before);
    var c := Checkpoints(before);
    RunKeepsInv(files, before);
    NextIdAfter(c);
    CheckpointKeepsInv(s, c);
    NewRevisionHasParent(s);
    RevisionStays(Checkpointed(s), after, c + 1, c + 1);
  }

  lemma NewRevisionHasParent(s: State)
    ensures ParentKept(s, Checkpointed(s))
  {
  }

  /** Past the limit a later checkpoint, after a rollback if need be, gives the revision another parent. */
  lemma LaterRunThatReparents(files: map<Path, Bytes>, before: seq<Op>) returns (after: seq<Op>)
    requires Checkpoints(before) + 1 >= LIMIT
    ensures !ParentKept(Run(Empty(files), before), Run(Checkpointed(Run(Empty(files), before)), after))
  {
    var s := Run(Empty(files), before);
    RunKeepsInv(files, before);
    SameIdTwice(s, Checkpoints(before));
    var s1 := Checkpointed(s);
    var id := NextId(s.revisions.Keys);
    if s.head != Some(id) {
      after := [Checkpoint];
      RunSnoc(s1, [], Checkpoint);
      assert [] + [Checkpoint] == [Checkpoint];
    } else {
      FirstIsThere(s, Checkpoints(before));
      after := [Rollback(Some(Format(1))), Checkpoint];
      RunSnoc(s1, [], Rollback(Some(Format(1))));
      RunSnoc(s1, [Rollback(Some(Format(1)))], Checkpoint);
      assert [] + [Rollback(Some(Format(1)))] == [Rollback(Some(Format(1)))];
      assert [Rollback(Some(Format(1)))] + [Checkpoint] == after;
    }
  }

  lemma FirstIsThere(s: State, c: nat)
    requires Inv(s, c) && c + 1 >= LIMIT
    ensures Format(1) in s.revisions && NextId(s.revisions.Keys) != Format(1)
  {
    NextIdAfter(c);
    assert Format(1) in IdsUpTo(Min(c, LIMIT));
    if IdAfter(c) == Format(1) {
      FormatIsInjective(Min(c, LIMIT - 1) + 1, 1);
    }
  }

  /** A checkpoint's revision has the HEAD it was taken from as its parent for good exactly for the first 9999. */
  lemma ParentIsHeadIff(files: map<Path, Bytes>, before: seq<Op>)
    ensures var s := Run(Empty(files), before);
            (forall after :: ParentKept(s, Run(Checkpointed(s), after))) <==> Checkpoints(before) + 1 < LIMIT
  {
    var s := Run(Empty(files), before);
    if Checkpoints(before) + 1 < LIMIT {
      forall after ensures ParentKept(s, Run(Checkpointed(s), after)) {
        ParentIsHead(files, before, after);
      }
    } else {
      var after := LaterRunThatReparents(files, before);
      assert !ParentKept(s, Run(Checkpointed(s), after));
    }
  }

  predicate NoRollback(ops: seq<Op>) {
    forall i :: 0 <= i < |ops| ==> !ops[i].Rollback?
  }

  /** The parents of `n` checkpoints with no rollback between. */
  ghost predicate Chained(s: State, n: nat) {
    && s.head == (if n == 0 then None else Some(Format(n)))
    && forall k :: 1 <= k <= n ==> FollowsOn(s, k)
  }

  /** Revision `k` is there, and its parent is the one numbered just below. */
  ghost predicate FollowsOn(s: State, k: nat) {
    && Format(k) in s.revisions
    && s.revisions[Format(k)].parent == if k <= 1 then None else Some(Format(k - 1))
  }

  /** Checkpoints in a row, whatever is edited between, make one chain: each has the one before it as its parent. */
  lemma {:induction false} CheckpointsInARow(files: map<Path, Bytes>, ops: seq<Op>)
    requires NoRollback(ops) && Checkpoints(ops) <= LIMIT
    ensures Chained(Run(Empty(files), ops), Checkpoints(ops))
  {
    hide Chained, Checkpointed;
    if ops == [] {
      EmptyIsChained(files);
    } else {
      var front, last := ops[..|ops| - 1], ops[|ops| - 1];
      CheckpointsInARow(files, front);
      RunKeepsInv(files, front);
      if last.Checkpoint? {
        ChainGrows(Run(Empty(files), front), Checkpoints(front));
      } else {
        EditKeepsChain(Run(Empty(files), front), last, Checkpoints(front));
      }
    }
  }

  lemma EditKeepsChain(s: State, op: Op, n: nat)
    requires Chained(s, n) && (op.Write? || op.Delete?)
    ensures Chained(Apply(s, op), n)
  {
    assert forall k :: FollowsOn(s, k) ==> FollowsOn(Apply(s, op), k);
  }

  lemma EmptyIsChained(files: map<Path, Bytes>)
    ensures Chained(Empty(files), 0)
  {
  }

  lemma ChainGrows(s: State, n: nat)
    requires Inv(s, n) && Chained(s, n) && n < LIMIT
    ensures Chained(Checkpointed(s), n + 1)
  {
    NextIdAfter(n);
    NewRevisionHasParent(s);
    var s' := Checkpointed(s);
    assert FollowsOn(s', n + 1);
    forall k | 1 <= k <= n
      ensures FollowsOn(s', k)
    {
      assert FollowsOn(s, k);
      if Format(k) == Format(n + 1) {
        FormatIsInjective(k, n + 1);
      }
    }
  }

  /** So from HEAD the parents are n - 1, n - 2 and so on to 1, and then none. */
  lemma {:induction false} WalkBack(s: State, n: nat, k: nat, steps: nat)
    requires Chained(s, n) && 1 <= k <= n && steps <= k
    ensures Ancestor(s, Format(k), steps) == if steps < k then Some(Format(k - steps)) else None
    decreases steps
  {
    assert FollowsOn(s, k);
    if steps > 0 && k > 1 {
      WalkBack(s, n, k - 1, steps - 1);
    }
  }

  /** A checkpoint after a rollback, and any edits, branches off the revision rolled back to. */
  lemma {:induction false} CheckpointAfterRollback(s: State, r: string, edits: seq<Op>)
    requires r in s.revisions && forall i :: 0 <= i < |edits| ==> edits[i].Write? || edits[i].Delete?
    ensures var now := Run(Apply(s, Rollback(Some(r))), edits);
            && now.head == Some(r) && now.revisions == s.revisions && ParentKept(now, Checkpointed(now))
            && Checkpointed(now).revisions[NextId(s.revisions.Keys)].parent == Some(r)
  {
    EditsKeepJournal(Apply(s, Rollback(Some(r))), edits);
  }

  lemma {:induction false} EditsKeepJournal(s: State, edits: seq<Op>)
    requires forall i :: 0 <= i < |edits| ==> edits[i].Write? || edits[i].Delete?
    ensures Run(s, edits).head == s.head && Run(s, edits).revisions == s.revisions
  {
    if edits != [] {
      EditsKeepJournal(s, edits[..|edits| - 1]);
    }
  }

  // ------------------------------------------------------------- what is recorded

  predicate Under(path: Path, dir: Path) {
    dir <= path
  }

  /** The journal's own directory, git's, and whatever lies in a directory of tools or builds. */
  predicate LeftAlone(path: Path) {
    || path == [] || Under(path, [".pulsing", "history"]) || Under(path, [".git"])
    || exists i :: 0 <= i < |path| && path[i] in TOOL_NAMES
  }

  const TOOL_NAMES := ["target", "node_modules", "__pycache__", ".venv", "venv", ".mypy_cache",
                       ".pytest_cache", ".ruff_cache", "dist", "build"]

  /** In every run each revision's record leaves these alone, and a checkpoint records every other file there is. */
  lemma {:induction false} RecordsExactly(files: map<Path, Bytes>, ops: seq<Op>)
    ensures var s := Run(Empty(files), ops);
            && (forall id, p :: id in s.revisions && p in s.revisions[id].recorded ==> !LeftAlone(p))
            && forall p :: p in Checkpointed(s).revisions[NextId(s.revisions.Keys)].recorded <==> p in s.files && !LeftAlone(p)
  {
    RunKeepsInv(files, ops);
    var s := Run(Empty(files), ops);
    forall p ensures ShouldSkip(p) <==> LeftAlone(p) {
      SkipsLeftAlone(p);
    }
    CheckpointRecords(s);
  }

  lemma SkipsLeftAlone(p: Path)
    ensures ShouldSkip(p) <==> LeftAlone(p)
  {
    assert forall x :: x in TOOL_NAMES <==> x in SKIPPED_NAMES;
    assert |p| >= 1 ==> (p[0] == ".git" <==> [".git"] <= p);
    assert |p| >= 2 ==> (p[0] == ".pulsing" && p[1] == "history" <==> [".pulsing", "history"] <= p);
  }

  // ----------------------------------------------------------- rollback restores

  /** A revision with a four-place id is never written again. */
  lemma OldRevisionStays(s: State, op: Op, c: nat, k: nat)
    requires Inv(s, c) && 1 <= k <= c && k < LIMIT
    ensures Format(k) in s.revisions && Format(k) in Apply(s, op).revisions
    ensures Apply(s, op).revisions[Format(k)] == s.revisions[Format(k)]
  {
    assert Format(k) in IdsUpTo(Min(c, LIMIT));
    if op.Checkpoint? {
      NextIdAfter(c);
      if Format(k) == IdAfter(c) {
        FormatIsInjective(k, Min(c, LIMIT - 1) + 1);
      }
    }
  }

  lemma {:induction false} RevisionStays(s: State, ops: seq<Op>, c: nat, k: nat)
    requires Inv(s, c) && 1 <= k <= c && k < LIMIT
    ensures Format(k) in s.revisions && Format(k) in Run(s, ops).revisions
    ensures Run(s, ops).revisions[Format(k)] == s.revisions[Format(k)]
    ensures Inv(Run(s, ops), c + Checkpoints(ops))
  {
    if ops == [] {
      assert Format(k) in IdsUpTo(Min(c, LIMIT));
    } else {
      var front := ops[..|ops| - 1];
      RevisionStays(s, front, c, k);
      OldRevisionStays(Run(s, front), ops[|ops| - 1], c + Checkpoints(front), k);
      StepKeepsInv(Run(s, front), ops[|ops| - 1], c + Checkpoints(front));
    }
  }

  /**
    Rolling back `later` to the revision a checkpoint of `s` made: every file the checkpoint saw
    has its bytes of then, every other path is as it was, and no revision changed.
   */
  ghost predicate Restores(s: State, later: State) {
    var id := NextId(s.revisions.Keys);
    var back := Apply(later, Rollback(Some(id)));
    && (forall p :: p in Kept(s.files) ==> p in back.files && back.files[p] == s.files[p])
    && (forall p :: p !in Kept(s.files) ==>
          (p in back.files <==> p in later.files) && (p in later.files ==> back.files[p] == later.files[p]))
    && back.revisions == later.revisions && back.head == Some(id)
  }

  lemma RevisionRestores(s: State, later: State)
    requires var id := NextId(s.revisions.Keys);
             && id in later.revisions && later.revisions[id].recorded == Kept(s.files).Keys
             && forall p :: p in Kept(s.files) ==>
                  p in later.revisions[id].stored && later.revisions[id].stored[p] == s.files[p]
    ensures Restores(s, later)
  {
  }

  /** Right after a checkpoint, its revision holds what the workspace held. */
  lemma CheckpointRecords(s: State)
    ensures var id := NextId(s.revisions.Keys);
            && id in Checkpointed(s).revisions && Checkpointed(s).revisions[id].recorded == Kept(s.files).Keys
            && forall p :: p in Kept(s.files) ==>
                 p in Checkpointed(s).revisions[id].stored && Checkpointed(s).revisions[id].stored[p] == s.files[p]
  {
  }

  /**
    Any of the first 9999 checkpoints can be restored after any further edits, checkpoints
    and rollbacks.
   */
  lemma {:induction false} RollbackRestores(files: map<Path, Bytes>, before: seq<Op>, after: seq<Op>)
    requires Checkpoints(before) + 1 < LIMIT
    ensures var s := Run(Empty(files), before);
            Restores(s, Run(Checkpointed(s), after))
  {
    RunKeepsInv(files, before);
    RestoresLater(Run(Empty(files), before), Checkpoints(before), after);
  }

  lemma RestoresLater(s: State, c: nat, after: seq<Op>)
    requires Inv(s, c) && c + 1 < LIMIT
    ensures Restores(s, Run(Checkpointed(s), after))
  {
    NextIdAfter(c);
    CheckpointKeepsInv(s, c);
    CheckpointRecords(s);
    RevisionStays(Checkpointed(s), after, c + 1, c + 1);
    RevisionRestores(s, Run(Checkpointed(s), after));
  }

  lemma SameIdTwice(s: State, c: nat)
    requires Inv(s, c) && c + 1 >= LIMIT
    ensures NextId(Checkpointed(s).revisions.Keys) == NextId(s.revisions.Keys)
  {
    CheckpointKeepsInv(s, c);
    NextIdAfter(c);
    NextIdAfter(c + 1);
    assert IdAfter(c) == IdAfter(c + 1);
    assert Checkpointed(s).revisions.Keys == IdsUpTo(Min(c + 1, LIMIT));
  }

  lemma OverwrittenBySameId(s: State, p: Path, x: Bytes, y: Bytes)
    requires !ShouldSkip(p) && x != y && (p in s.files ==> x != s.files[p])
    requires NextId(Checkpointed(s).revisions.Keys) == NextId(s.revisions.Keys)
    ensures !Restores(s, Apply(Checkpointed(Apply(Checkpointed(s), Write(p, x))), Write(p, y)))
  {
    var id := NextId(s.revisions.Keys);
    var edited := Apply(Checkpointed(s), Write(p, x));
    var again := Checkpointed(edited);
    var later := Apply(again, Write(p, y));
    var back := Apply(later, Rollback(Some(id)));
    CheckpointRecords(edited);
    assert p in Kept(edited.files) && again.revisions[id].stored[p] == x;
    assert CopiesOf(later.revisions[id])[p] == x;
    assert p in back.files && back.files[p] == x;
    if p in Kept(s.files) {
      assert s.files[p] != x;
    } else {
      assert later.files[p] == y;
    }
  }

  /** From the ten-thousandth on, the next checkpoint writes over the revision. */
  lemma LateRevisionIsOverwritten(files: map<Path, Bytes>, before: seq<Op>, p: Path, x: Bytes, y: Bytes)
    requires Checkpoints(before) + 1 >= LIMIT
    requires !ShouldSkip(p) && x != y
    requires var now := Run(Empty(files), before).files; p in now ==> x != now[p]
    ensures var s := Run(Empty(files), before);
            !Restores(s, Run(Checkpointed(s), [Write(p, x), Checkpoint, Write(p, y)]))
  {
    var s := Run(Empty(files), before);
    RunKeepsInv(files, before);
    SameIdTwice(s, Checkpoints(before));
    RunOfThree(Checkpointed(s), Write(p, x), Checkpoint, Write(p, y));
    OverwrittenBySameId(s, p, x, y);
  }

  lemma LaterRunThatOverwrites(files: map<Path, Bytes>, before: seq<Op>) returns (after: seq<Op>)
    requires Checkpoints(before) + 1 >= LIMIT
    ensures !Restores(Run(Empty(files), before), Run(Checkpointed(Run(Empty(files), before)), after))
  {
    var now := Run(Empty(files), before).files;
    var p := KeptPath();
    var x: Bytes := if p in now && now[p] == [0] then [1] else [0];
    after := [Write(p, x), Checkpoint, Write(p, [])];
    LateRevisionIsOverwritten(files, before, p, x, []);
  }

  lemma KeptPath() returns (p: Path)
    ensures !ShouldSkip(p)
  {
    p := ["notes"];
  }

  lemma RunOfThree(s: State, a: Op, b: Op, c: Op)
    ensures Run(s, [a, b, c]) == Apply(Apply(Apply(s, a), b), c)
  {
    RunSnoc(s, [], a);
    RunSnoc(s, [a], b);
    RunSnoc(s, [a, b], c);
    assert [] + [a] == [a] && [a] + [b] == [a, b] && [a, b] + [c] == [a, b, c];
  }

  /**
    A checkpoint can be restored whatever happens after it exactly when it is one of the first
    9999.
   */
  lemma RestoreHoldsIff(files: map<Path, Bytes>, before: seq<Op>)
    ensures var s := Run(Empty(files), before);
            (forall after :: Restores(s, Run(Checkpointed(s), after))) <==> Checkpoints(before) + 1 < LIMIT
  {
    var s := Run(Empty(files), before);
    if Checkpoints(before) + 1 < LIMIT {
      forall after ensures Restores(s, Run(Checkpointed(s), after)) {
        RollbackRestores(files, before, after);
      }
    } else {
      var after := LaterRunThatOverwrites(files, before);
    }
  }
}
