/**
  The workspace revision journal (journal.rs): checkpoints copy every file that is not skipped
  into a numbered revision, rollbacks copy a revision back. The workspace is a flat map from
  paths to bytes; the journal's own directory is the other two fields.
 */
module Journal {
  import opened Basics
  import opened RevisionIds

  /** A relative path by its components. */
  type Path = seq<string>

  const SKIPPED_NAMES := {"target", "node_modules", "__pycache__", ".venv", "venv", ".mypy_cache",
                          ".pytest_cache", ".ruff_cache", "dist", "build"}

  /** `should_skip` of ignore.rs. */
  predicate ShouldSkip(path: Path) {
    || path == []
    || (|path| >= 2 && path[0] == ".pulsing" && path[1] == "history")
    || path[0] == ".git"
    || exists i :: 0 <= i < |path| && path[i] in SKIPPED_NAMES
  }

  /** A manifest's parent and recorded paths, and the copies in the revision's directory. */
  datatype Revision = Revision(parent: Option<string>, recorded: set<Path>, stored: map<Path, Bytes>)

  datatype State = State(files: map<Path, Bytes>, revisions: map<string, Revision>, head: Option<string>)

  function Empty(files: map<Path, Bytes>): State {
    State(files, map[], None)
  }

  // ------------------------------------------------------------------- next id

  ghost predicate IsLast(ids: set<string>, last: string) {
    last in ids && forall x :: x in ids ==> AtMost(x, last)
  }

  function NumberOf(id: string): nat {
    var n := ParseU32(id);
    if n.Some? then n.value else 0
  }

  /** One more than the number of the id that sorts last. */
  ghost function NextId(ids: set<string>): string {
    if exists last :: IsLast(ids, last)
    then var last :| IsLast(ids, last); Format(NumberOf(last) + 1)
    else Format(1)
  }

  lemma LastIsUnique(ids: set<string>, a: string, b: string)
    requires IsLast(ids, a) && IsLast(ids, b)
    ensures a == b
  {
    LessIsTotal(a, b);
  }

  lemma NextIdIs(ids: set<string>, last: string)
    requires IsLast(ids, last)
    ensures NextId(ids) == Format(NumberOf(last) + 1)
  {
    var m :| IsLast(ids, m) && NextId(ids) == Format(NumberOf(m) + 1);
    LastIsUnique(ids, m, last);
  }

  // ---------------------------------------------------------------- operations

  function Kept(files: map<Path, Bytes>): map<Path, Bytes> {
    map p | p in files && !ShouldSkip(p) :: files[p]
  }

  /**
    A checkpoint. Its directory may exist already: then the copies are added to those there,
    and the manifest is overwritten.
   */
  ghost function Checkpointed(s: State): State {
    var id := NextId(s.revisions.Keys);
    var before := if id in s.revisions then s.revisions[id].stored else map[];
    s.(revisions := s.revisions[id := Revision(s.head, Kept(s.files).Keys, before + Kept(s.files))], head := Some(id))
  }

  function CopiesOf(r: Revision): map<Path, Bytes> {
    map p | p in r.recorded && !ShouldSkip(p) && p in r.stored :: r.stored[p]
  }

  function RolledBack(s: State, id: string): State
    requires id in s.revisions
  {
    s.(files := s.files + CopiesOf(s.revisions[id]), head := Some(id))
  }

  datatype RollbackResult = Restored(id: string) | NoCheckpoint | NotFound(id: string)

  class Workspace {
    var files: map<Path, Bytes>
    var revisions: map<string, Revision>
    var head: Option<string>

    ghost function Model(): State
      reads this
    {
      State(files, revisions, head)
    }

    constructor (files: map<Path, Bytes>)
      ensures Model() == Empty(files)
    {
      this.files, revisions, head := files, map[], None;
    }

    /** All ids, sorted as strings. */
    method ListRevisions() returns (ids: seq<string>)
      ensures forall x :: x in ids <==> x in revisions
      ensures forall i, j :: 0 <= i < j < |ids| ==> Less(ids[i], ids[j])
    {
      ids := [];
      var rest := revisions.Keys;
      while rest != {}
        invariant rest <= revisions.Keys
        invariant forall x :: x in ids <==> x in revisions.Keys - rest
        invariant forall i, j :: 0 <= i < j < |ids| ==> Less(ids[i], ids[j])
        decreases rest
      {
        var id :| id in rest;
        ids := InsertSorted(ids, id);
        rest := rest - {id};
      }
    }

    method NextRevisionId() returns (id: string)
      ensures id == NextId(revisions.Keys)
    {
      var ids := ListRevisions();
      if ids == [] {
        assert !exists last :: IsLast(revisions.Keys, last);
        return Format(1);
      }
      var last := ids[|ids| - 1];
      assert IsLast(revisions.Keys, last);
      NextIdIs(revisions.Keys, last);
      id := Format(NumberOf(last) + 1);
    }

    /** Every file that is not skipped, once. */
    method ScanWorkspaceFiles() returns (paths: seq<Path>)
      ensures forall p :: p in paths <==> p in files && !ShouldSkip(p)
      ensures forall i, j :: 0 <= i < j < |paths| ==> paths[i] != paths[j]
    {
      paths := [];
      var rest := files.Keys;
      while rest != {}
        invariant rest <= files.Keys
        invariant forall p :: p in paths <==> p in files.Keys - rest && !ShouldSkip(p)
        invariant forall i, j :: 0 <= i < j < |paths| ==> paths[i] != paths[j]
        decreases rest
      {
        var p :| p in rest;
        rest := rest - {p};
        if !ShouldSkip(p) {
          paths := paths + [p];
        }
      }
    }

    /** Copy each scanned file into the revision's directory and record it. */
    method CopyFiles(scanned: seq<Path>, before: map<Path, Bytes>)
      returns (recorded: set<Path>, stored: map<Path, Bytes>)
      requires forall p :: p in scanned <==> p in files && !ShouldSkip(p)
      ensures recorded == Kept(files).Keys && stored == before + Kept(files)
    {
      recorded, stored := {}, before;
      for i := 0 to |scanned|
        invariant recorded == set p | p in scanned[..i]
        invariant stored.Keys == before.Keys + recorded
        invariant forall p :: p in stored ==> stored[p] == if p in recorded then files[p] else before[p]
      {
        assert scanned[..i + 1] == scanned[..i] + [scanned[i]];
        stored := stored[scanned[i] := files[scanned[i]]];
        recorded := recorded + {scanned[i]};
      }
      assert scanned[..|scanned|] == scanned;
    }

    method Checkpoint() returns (id: string)
      modifies this
      ensures Model() == Checkpointed(old(Model())) && head == Some(id)
    {
      var parent := head;
      id := NextRevisionId();
      var before := if id in revisions then revisions[id].stored else map[];
      var scanned := ScanWorkspaceFiles();
      var recorded, stored := CopyFiles(scanned, before);
      revisions := revisions[id := Revision(parent, recorded, stored)];
      head := Some(id);
    }

    method Rollback(target: Option<string>) returns (result: RollbackResult)
      modifies this
      ensures result.NoCheckpoint? <==> target.None? && old(head).None?
      ensures result.NotFound? ==> result.id !in old(revisions)
      ensures result.Restored? ==> result.id in old(revisions) && Model() == RolledBack(old(Model()), result.id)
      ensures !result.NoCheckpoint? ==> result.id == (if target.Some? then target.value else old(head).value)
      ensures !result.Restored? ==> Model() == old(Model())
    {
      if target.None? && head.None? {
        return NoCheckpoint;
      }
      var id := if target.Some? then target.value else head.value;
      if id !in revisions {
        return NotFound(id);
      }
      var r := revisions[id];
      var restored := files;
      var rest := r.recorded;
      while rest != {}
        invariant rest <= r.recorded
        invariant restored.Keys == files.Keys + (CopiesOf(r).Keys - rest)
        invariant forall p :: p in restored ==>
                    restored[p] == if p in CopiesOf(r) && p !in rest then r.stored[p] else files[p]
        decreases rest
      {
        var p :| p in rest;
        rest := rest - {p};
        if !ShouldSkip(p) && p in r.stored {
          restored := restored[p := r.stored[p]];
        }
      }
      files := restored;
      assert files == old(files) + CopiesOf(r);
      head := Some(id);
      result := Restored(id);
    }
  }

  method InsertSorted(ids: seq<string>, id: string) returns (out: seq<string>)
    requires id !in ids && forall i, j :: 0 <= i < j < |ids| ==> Less(ids[i], ids[j])
    ensures forall x :: x in out <==> x in ids || x == id
    ensures forall i, j :: 0 <= i < j < |out| ==> Less(out[i], out[j])
  {
    var k := 0;
    while k < |ids| && Less(ids[k], id)
      invariant k <= |ids| && forall i :: 0 <= i < k ==> Less(ids[i], id)
    {
      k := k + 1;
    }
    out := ids[..k] + [id] + ids[k..];
    if k < |ids| {
      LessIsTotal(ids[k], id);
    }
    forall i | k <= i < |ids|
      ensures Less(id, ids[i])
    {
      if i > k {
        LessIsTransitive(id, ids[k], ids[i]);
      }
    }
  }
}
